/**
 Three-level feedback queue. Each tick, in order: every arrival moves from
 the external ready queue to the tail of Q0; if the boost period has passed,
 Q1 and then Q2 are moved to the tail of Q0; the running task advances one
 tick and either finishes, or is preempted and demoted one level when its
 quantum is used up, or keeps the CPU; finally an empty CPU takes the head
 of Q0, else of Q1, else of Q2.

 The scheduler's file-scope variables become the `State` record. The level
 is one scheduler-wide variable, the level of the queue the running task was
 last taken from, and one quantum of `MlfqQuantumTicks` ticks applies to
 every level.
 */
module Mlfq {
  import opened Process

  /** Ticks a task may run before it is preempted, at every level. */
  const MlfqQuantumTicks: int := 50

  /** Milliseconds between two boosts. */
  const BoostPeriodMs: int := 100

  datatype State = State(
    q0: seq<Pcb>,
    q1: seq<Pcb>,
    q2: seq<Pcb>,
    currentLevel: int,   // level the running task was dequeued from
    qUsed: int,          // ticks of the current quantum already spent
    lastBoost: u32       // clock value of the last boost
  )

  /** The state before the first tick. */
  const Initial: State := State([], [], [], 0, 0, 0)

  /** What one MLFQ tick leaves behind. `rq` is the external ready queue. */
  datatype Tick = Tick(state: State, rq: seq<Pcb>, cpu: Option<Pcb>, done: Option<Done>)

  /** The outcome of advancing the CPU task (step 3 of a tick). */
  datatype Run = Run(state: State, cpu: Option<Pcb>, done: Option<Done>)

  /** The queue of level `i`. */
  function Level(s: State, i: int): seq<Pcb>
    requires 0 <= i <= 2
  {
    if i == 0 then s.q0 else if i == 1 then s.q1 else s.q2
  }

  /** Every task the three level queues hold, highest priority first. */
  function Queued(s: State): seq<Pcb> {
    s.q0 + s.q1 + s.q2
  }

  /** The bounds the scheduler variables keep from one tick to the next. */
  predicate Valid(s: State) {
    0 <= s.currentLevel <= 2 && 0 <= s.qUsed < MlfqQuantumTicks
  }

  /** Every level other than `i` is the same in `r` as in `s`. */
  predicate OthersUnchanged(r: State, s: State, i: int) {
    (i != 0 ==> r.q0 == s.q0) && (i != 1 ==> r.q1 == s.q1) && (i != 2 ==> r.q2 == s.q2)
  }

  /** Every level of higher priority than `l` is empty. */
  predicate HigherEmpty(s: State, l: int) {
    (l > 0 ==> s.q0 == []) && (l > 1 ==> s.q1 == [])
  }

  function Min(a: int, b: int): int {
    if a <= b then a else b
  }

  /** `enqueue_level`: a level at or below 0 means Q0, 1 means Q1 and
      anything above means Q2. */
  function EnqueueLevel(s: State, p: Pcb, lvl: int): (r: State)
    ensures r.currentLevel == s.currentLevel && r.qUsed == s.qUsed && r.lastBoost == s.lastBoost
    ensures var i := if lvl <= 0 then 0 else Min(lvl, 2);
            Level(r, i) == Level(s, i) + [p] && OthersUnchanged(r, s, i)
    ensures multiset(Queued(r)) == multiset(Queued(s)) + multiset{p}
  {
    if lvl <= 0 then s.(q0 := Enqueue(s.q0, p))
    else if lvl == 1 then s.(q1 := Enqueue(s.q1, p))
    else s.(q2 := Enqueue(s.q2, p))
  }

  /** `dequeue_next_by_priority`: takes the head of the first non-empty level
      and records that level as the current one; leaves everything as it is
      when all three queues are empty. */
  function DequeueNextByPriority(s: State): (r: (Option<Pcb>, State))
    ensures r.0.None? <==> Queued(s) == []
    ensures r.0.None? ==> r.1 == s
    ensures r.0.Some? ==>
              var l := r.1.currentLevel;
              && 0 <= l <= 2
              // strict priority: every higher level was empty
              && HigherEmpty(s, l)
              // the task was the head of its level, which lost only that task
              && [r.0.value] + Level(r.1, l) == Level(s, l)
              && OthersUnchanged(r.1, s, l)
              && r.1.qUsed == s.qUsed && r.1.lastBoost == s.lastBoost
  {
    var (p0, rest0) := Dequeue(s.q0);
    if p0.Some? then (p0, s.(q0 := rest0, currentLevel := 0))
    else
      var (p1, rest1) := Dequeue(s.q1);
      if p1.Some? then (p1, s.(q1 := rest1, currentLevel := 1))
      else
        var (p2, rest2) := Dequeue(s.q2);
        if p2.Some? then (p2, s.(q2 := rest2, currentLevel := 2))
        else (None, s)
  }

  /** `ingest_new_arrivals`: every task of the ready queue `rq`, in order, to
      the tail of Q0; the ready queue is left empty. */
  function Ingest(s: State, rq: seq<Pcb>): (r: State)
    ensures r.q0 == s.q0 + rq
    ensures r == s.(q0 := r.q0)
  {
    s.(q0 := Drain(s.q0, rq))
  }

  /** The boost test `now - last_boost < BOOST_PERIOD_MS` on unsigned 32-bit
      values, where the subtraction wraps around. */
  predicate BoostDue(lastBoost: u32, now: u32) {
    (now - lastBoost) % 0x1_0000_0000 >= BoostPeriodMs
  }

  /** Without a clock wrap-around the boost test is the plain difference; after
      the clock wraps, the unsigned difference still counts the elapsed time
      across the wrap. */
  lemma BoostDueElapsed(lastBoost: u32, now: u32)
    ensures lastBoost <= now ==> (BoostDue(lastBoost, now) <==> now - lastBoost >= BoostPeriodMs)
    ensures now < lastBoost ==>
              (BoostDue(lastBoost, now) <==> 0x1_0000_0000 - lastBoost + now >= BoostPeriodMs)
  {
  }

  /** `maybe_boost`: once the period has passed, Q1 and then Q2 move to the
      tail of Q0 in order and the boost time becomes `now`. */
  function MaybeBoost(s: State, now: u32): (r: State)
    ensures BoostDue(s.lastBoost, now) ==>
              && r.q0 == s.q0 + s.q1 + s.q2 && r.q1 == [] && r.q2 == []
              && r.lastBoost == now
              && r.currentLevel == s.currentLevel && r.qUsed == s.qUsed
    ensures !BoostDue(s.lastBoost, now) ==> r == s
    ensures multiset(Queued(r)) == multiset(Queued(s))
  {
    if !BoostDue(s.lastBoost, now) then s
    else
      var q0 := Drain(Drain(s.q0, s.q1), s.q2);
      s.(q0 := q0, q1 := [], q2 := [], lastBoost := now)
  }

  /** Preemption at the end of a quantum: the task goes to the tail of the
      next lower level (Q2 stays Q2) and the quantum counter restarts. A
      level below 0 cannot arise from a tick, but `enqueue_level` would put
      the task in Q0. */
  function Demote(s: State, p: Pcb): (r: State)
    ensures r.qUsed == 0 && r.currentLevel == s.currentLevel && r.lastBoost == s.lastBoost
    ensures var t := if s.currentLevel < 0 then 0 else Min(s.currentLevel + 1, 2);
            Level(r, t) == Level(s, t) + [p] && OthersUnchanged(r, s, t)
    ensures multiset(Queued(r)) == multiset(Queued(s)) + multiset{p}
  {
    var next := if s.currentLevel < 2 then s.currentLevel + 1 else 2;
    EnqueueLevel(s, p, next).(qUsed := 0)
  }

  /** Step 3 of a tick: the CPU task, if any, runs one more tick. */
  function RunCpu(s: State, cpu: Option<Pcb>, now: u32): (r: Run)
    ensures cpu.None? ==> r == Run(s, None, None)
    // completion happens exactly when the advanced task has reached its time
    ensures r.done.Some? <==> cpu.Some? && Finished(Advance(cpu.value))
    ensures r.done.Some? ==> r.done == Some(Done(cpu.value.pid, now)) && r.cpu.None?
                             && r.state == s.(qUsed := 0)
    // an unfinished task that used up its quantum, whatever its level, is
    // demoted and leaves the CPU
    ensures cpu.Some? && !Finished(Advance(cpu.value)) && s.qUsed + 1 >= MlfqQuantumTicks ==>
              r.cpu.None? && r.state == Demote(s, Advance(cpu.value))
    // otherwise the task keeps the CPU and only its elapsed time and the
    // quantum counter move
    ensures cpu.Some? && !Finished(Advance(cpu.value)) && s.qUsed + 1 < MlfqQuantumTicks ==>
              r.cpu == Some(Advance(cpu.value)) && r.state == s.(qUsed := s.qUsed + 1)
    ensures multiset(Queued(r.state) + CpuSeq(r.cpu)) + Retired(cpu, r.done)
            == multiset(Queued(s) + CpuSeq(AdvanceCpu(cpu)))
  {
    if cpu.None? then Run(s, None, None)
    else
      var p := Advance(cpu.value);
      var used := s.qUsed + 1;
      if Finished(p) then Run(s.(qUsed := 0), None, Some(Done(p.pid, now)))
      else if used >= MlfqQuantumTicks then Run(Demote(s, p), None, None)
      else Run(s.(qUsed := used), Some(p), None)
  }

  /** Step 4 of a tick: an empty CPU takes a task by priority and the quantum
      counter restarts, even when there is nothing to run. */
  function Dispatch(s: State, cpu: Option<Pcb>): (r: (State, Option<Pcb>))
    ensures cpu.Some? ==> r == (s, cpu)
    ensures cpu.None? ==> r.0.qUsed == 0
    ensures cpu.None? ==> (r.1.None? <==> Queued(s) == [])
    ensures r.1.None? ==> r.0 == s.(qUsed := 0)
    ensures r.0.currentLevel == s.currentLevel || 0 <= r.0.currentLevel <= 2
    ensures multiset(Queued(r.0) + CpuSeq(r.1)) == multiset(Queued(s) + CpuSeq(cpu))
  {
    if cpu.Some? then (s, cpu)
    else
      var (p, s') := DequeueNextByPriority(s);
      (s'.(qUsed := 0), p)
  }

  /** Steps 1 and 2: the level queues after arrivals and the boost. */
  function Admit(s: State, now: u32, rq: seq<Pcb>): (r: State)
    ensures multiset(Queued(r)) == multiset(rq + Queued(s))
    ensures r.currentLevel == s.currentLevel && r.qUsed == s.qUsed
  {
    var s1 := Ingest(s, rq);
    assert Queued(s1) == (s.q0 + rq) + s.q1 + s.q2;
    assert multiset(Queued(s1)) == multiset(rq + Queued(s));
    MaybeBoost(s1, now)
  }

  /** `mlfq_scheduler`: one tick at clock `now`; `rq` holds this tick's arrivals. */
  function MlfqTick(s: State, now: u32, rq: seq<Pcb>, cpu: Option<Pcb>): (r: Tick)
    ensures r.rq == []
    ensures r.done.Some? <==> cpu.Some? && Finished(Advance(cpu.value))
    ensures r.done.Some? ==> r.done == Some(Done(cpu.value.pid, now))
    // the quantum counter never reaches the quantum and is zero on an idle CPU
    ensures r.state.qUsed < MlfqQuantumTicks
    ensures r.cpu.None? ==> r.state.qUsed == 0
  {
    var s2 := Admit(s, now, rq);
    var run := RunCpu(s2, cpu, now);
    var d := Dispatch(run.state, run.cpu);
    Tick(d.0, [], d.1, run.done)
  }

  /** No task is lost or made up by a tick: the ready queue, the levels and
      the CPU afterwards hold the tasks held before, with the CPU task
      advanced by one tick, less the task that completed, if any. */
  lemma TickConserves(s: State, now: u32, rq: seq<Pcb>, cpu: Option<Pcb>)
    ensures var r := MlfqTick(s, now, rq, cpu);
            multiset(r.rq + Queued(r.state) + CpuSeq(r.cpu)) + Retired(cpu, r.done)
            == multiset(rq + Queued(s) + CpuSeq(AdvanceCpu(cpu)))
  {
    var s2 := Admit(s, now, rq);
    var run := RunCpu(s2, cpu, now);
    var d := Dispatch(run.state, run.cpu);
    assert multiset(Queued(d.0) + CpuSeq(d.1)) + Retired(cpu, run.done)
           == multiset(Queued(s2) + CpuSeq(AdvanceCpu(cpu)));
  }

  /** The tick keeps the scheduler variables in bounds: the level is one of
      the three queues and the quantum counter stays below the quantum. */
  lemma TickKeepsValid(s: State, now: u32, rq: seq<Pcb>, cpu: Option<Pcb>)
    requires Valid(s)
    ensures Valid(MlfqTick(s, now, rq, cpu).state)
  {
    var run := RunCpu(Admit(s, now, rq), cpu, now);
    assert 0 <= run.state.currentLevel <= 2;
  }

  /** The scheduler starts in bounds, with all three levels empty, so every
      state reached by ticks from it keeps `Valid`. */
  lemma InitialValid()
    ensures Valid(Initial) && Queued(Initial) == []
  {
  }

  /** The boost moves Q1 and Q2 behind Q0, in that order, and clears them. */
  lemma BoostEmptiesLowerLevels(s: State, now: u32, rq: seq<Pcb>, cpu: Option<Pcb>)
    requires BoostDue(s.lastBoost, now)
    ensures Admit(s, now, rq) == s.(q0 := s.q0 + rq + s.q1 + s.q2, q1 := [], q2 := [], lastBoost := now)
    ensures MlfqTick(s, now, rq, cpu).state.lastBoost == now
  {
  }

  /** When the CPU is free after step 3, the task dispatched is the head of
      the highest non-empty level, and the current level becomes that level;
      with all levels empty the CPU stays empty and the level is kept. */
  lemma {:induction false} DispatchByPriority(s: State)
    ensures var r := Dispatch(s, None);
            && (r.1.None? <==> s.q0 == [] && s.q1 == [] && s.q2 == [])
            && (s.q0 != [] ==> r.1 == Some(s.q0[0]) && r.0.currentLevel == 0)
            && (s.q0 == [] && s.q1 != [] ==> r.1 == Some(s.q1[0]) && r.0.currentLevel == 1)
            && (s.q0 == [] && s.q1 == [] && s.q2 != [] ==> r.1 == Some(s.q2[0]) && r.0.currentLevel == 2)
            && (r.1.None? ==> r.0.currentLevel == s.currentLevel)
  {
    var (p, s') := DequeueNextByPriority(s);
    if p.Some? {
      var l := s'.currentLevel;
      assert p.value == Level(s, l)[0] by {
        assert ([p.value] + Level(s', l))[0] == p.value;
      }
    } else {
      assert Queued(s) == [];
    }
  }

  /** A task that neither finishes nor uses up its quantum keeps the CPU; only
      its elapsed time and the quantum counter change, and the levels are
      those left by arrivals and boost. */
  lemma KeepsRunning(s: State, now: u32, rq: seq<Pcb>, p: Pcb)
    requires !Finished(Advance(p)) && s.qUsed + 1 < MlfqQuantumTicks
    ensures var r := MlfqTick(s, now, rq, Some(p));
            var a := Admit(s, now, rq);
            && r.cpu == Some(Advance(p)) && r.done.None?
            && r.state == a.(qUsed := s.qUsed + 1)
            && r.state.currentLevel == s.currentLevel
  {
    RunsOn(Admit(s, now, rq), now, p);
  }

  /** Steps 3 and 4 for a task that neither finishes nor uses up its quantum,
      from any levels: the task stays and only the counter moves. */
  lemma RunsOn(a: State, now: u32, p: Pcb)
    requires !Finished(Advance(p)) && a.qUsed + 1 < MlfqQuantumTicks
    ensures var run := RunCpu(a, Some(p), now);
            && run.done.None?
            && Dispatch(run.state, run.cpu) == (a.(qUsed := a.qUsed + 1), Some(Advance(p)))
  {
  }

  /** A tick with no arrivals and no boost due, whose task neither finishes
      nor uses up its quantum, changes nothing but that task's elapsed time
      and the quantum counter. */
  lemma QuietTick(s: State, now: u32, p: Pcb)
    requires !Finished(Advance(p)) && s.qUsed + 1 < MlfqQuantumTicks
    requires !BoostDue(s.lastBoost, now)
    ensures MlfqTick(s, now, [], Some(p)) == Tick(s.(qUsed := s.qUsed + 1), [], Some(Advance(p)), None)
  {
    assert Ingest(s, []) == s;
    assert Admit(s, now, []) == s;
    RunsOn(s, now, p);
  }

  /** A demoted task re-enters at the tail of the next level, and when the
      levels above that one are empty the head of that level, possibly the
      demoted task itself, is dispatched at once, now at the lower level. */
  lemma DemoteAndRedispatch(s: State, now: u32, p: Pcb)
    requires Valid(s) && s.qUsed + 1 == MlfqQuantumTicks && !Finished(Advance(p))
    requires !BoostDue(s.lastBoost, now)
    requires s.q0 == [] && (s.currentLevel >= 1 ==> s.q1 == [])
    ensures var r := MlfqTick(s, now, [], Some(p));
            var t := Min(s.currentLevel + 1, 2);
            && r.cpu == Some(if Level(s, t) == [] then Advance(p) else Level(s, t)[0])
            && r.state.currentLevel == t
            && r.state.qUsed == 0
  {
    assert Ingest(s, []) == s;
    assert Admit(s, now, []) == s;
    var t := Min(s.currentLevel + 1, 2);
    var mid := Demote(s, Advance(p));
    assert RunCpu(s, Some(p), now).state == mid;
    assert Level(mid, t) == Level(s, t) + [Advance(p)];
    var (q, s') := DequeueNextByPriority(mid);
    assert q.Some?;
    var l := s'.currentLevel;
    assert l == t;
    assert q.value == Level(mid, t)[0] by {
      assert ([q.value] + Level(s', l))[0] == q.value;
    }
  }

  /** The completed task leaves the scheduler: when no other task has its
      pid, no task with that pid is left in any queue or the CPU. */
  lemma CompletedTaskGone(s: State, now: u32, rq: seq<Pcb>, p: Pcb)
    requires Finished(Advance(p))
    requires PidAbsent(rq + Queued(s), p.pid)
    ensures var r := MlfqTick(s, now, rq, Some(p));
            PidAbsent(r.rq + Queued(r.state) + CpuSeq(r.cpu), p.pid)
  {
    var r := MlfqTick(s, now, rq, Some(p));
    TickConserves(s, now, rq, Some(p));
    RetiredGone(rq + Queued(s), r.rq + Queued(r.state) + CpuSeq(r.cpu), Some(p), r.done);
  }

  /** A task alone in the scheduler, with no arrivals, is never left out of
      the CPU: whether it keeps running or is demoted, it is the task that
      runs next, and the levels stay empty. */
  lemma SoleTaskStep(s: State, now: u32, p: Pcb)
    requires Queued(s) == [] && !Finished(Advance(p))
    ensures var r := MlfqTick(s, now, [], Some(p));
            r.cpu == Some(Advance(p)) && Queued(r.state) == [] && r.done.None?
  {
    var r := MlfqTick(s, now, [], Some(p));
    TickConserves(s, now, [], Some(p));
    var a := Admit(s, now, []);
    assert |Queued(a)| == |multiset(Queued(a))| == 0;
    var run := RunCpu(a, Some(p), now);
    assert multiset(Queued(r.state) + CpuSeq(r.cpu)) == multiset{Advance(p)};
    assert |Queued(r.state) + CpuSeq(r.cpu)| == 1;
    assert Queued(r.state) == [];
    assert r.cpu.value in multiset{Advance(p)};
  }

  /** Ticks at the clock values `times`, in turn, from the state `s` and the
      CPU slot `cpu`, with no arrivals; the completion events in the order
      they were emitted. */
  function MlfqRun(times: seq<u32>, s: State, cpu: Option<Pcb>): seq<Done>
    decreases |times|
  {
    if times == [] then []
    else
      var r := MlfqTick(s, times[0], [], cpu);
      (if r.done.Some? then [r.done.value] else []) + MlfqRun(times[1..], r.state, r.cpu)
  }

  /** The first of a run of ticks, for a task alone in the scheduler that
      does not finish: the rest of the run starts from the levels it leaves,
      which are empty, with the advanced task in the CPU. */
  lemma SoleTaskRunStep(times: seq<u32>, s: State, p: Pcb)
    requires times != [] && Queued(s) == [] && !Finished(Advance(p))
    ensures exists s' :: Queued(s') == [] &&
              MlfqRun(times, s, Some(p)) == MlfqRun(times[1..], s', Some(Advance(p)))
  {
    SoleTaskStep(s, times[0], p);
    var r := MlfqTick(s, times[0], [], Some(p));
    assert MlfqRun(times, s, Some(p)) == MlfqRun(times[1..], r.state, Some(Advance(p)));
  }

  /** The last tick of a run for a task that finishes on it: its completion
      is the only event. */
  lemma SoleTaskLastTick(times: seq<u32>, s: State, p: Pcb)
    requires |times| == 1 && Finished(Advance(p))
    ensures MlfqRun(times, s, Some(p)) == [Done(p.pid, times[0])]
  {
    var r := MlfqTick(s, times[0], [], Some(p));
    assert times[1..] == [];
    assert MlfqRun(times[1..], r.state, r.cpu) == [];
  }

  /** A task running alone completes at the first tick after which its
      elapsed time reaches its required time, and not before: demotions and
      boosts do not delay it, and over exactly that many ticks the only
      event is its completion, stamped with the clock of the last tick. */
  lemma {:induction false} SoleTaskCompletesOnTime(times: seq<u32>, s: State, p: Pcb)
    requires Queued(s) == []
    requires |times| == TicksLeft(p)
    ensures MlfqRun(times, s, Some(p)) == [Done(p.pid, times[|times| - 1])]
    decreases |times|
  {
    if |times| == 1 {
      SoleTaskLastTick(times, s, p);
    } else {
      var rest := times[1..];
      assert |rest| == TicksLeft(Advance(p));
      assert rest[|rest| - 1] == times[|times| - 1];
      SoleTaskRunStep(times, s, p);
      var s' :| Queued(s') == [] && MlfqRun(times, s, Some(p)) == MlfqRun(rest, s', Some(Advance(p)));
      SoleTaskCompletesOnTime(rest, s', Advance(p));
    }
  }
}
