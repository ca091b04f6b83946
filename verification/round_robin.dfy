/**
 Round robin with a quantum of one tick: the running task advances one
 tick; if it is finished a completion event is emitted, otherwise it goes
 back to the tail of the ready queue. Then an empty CPU takes the head of
 the ready queue.
 */
module RoundRobin {
  import opened Process

  /** One call of the round-robin scheduler at clock `now`. */
  function RrTick(now: u32, rq: seq<Pcb>, cpu: Option<Pcb>): (r: TickResult)
    // completion happens exactly when the advanced task has reached its time
    ensures r.done.Some? <==> cpu.Some? && Finished(Advance(cpu.value))
    ensures r.done.Some? ==> r.done == Some(Done(cpu.value.pid, now))
    // a finished task (or an idle CPU) leaves the queue to be dispatched as is
    ensures (cpu.None? || Finished(Advance(cpu.value))) ==>
              (r.cpu.None? <==> rq == []) &&
              (rq == [] ==> r.rq == []) &&
              (rq != [] ==> r.cpu == Some(rq[0]) && [rq[0]] + r.rq == rq)
    // an unfinished task is appended to the tail and the head is dispatched
    ensures cpu.Some? && !Finished(Advance(cpu.value)) ==>
              r.cpu.Some? && [r.cpu.value] + r.rq == rq + [Advance(cpu.value)]
  {
    if cpu.None? then
      var (head, rest) := Dequeue(rq);
      TickResult(rest, head, None)
    else
      var p := Advance(cpu.value);
      if Finished(p) then
        var (head, rest) := Dequeue(rq);
        TickResult(rest, head, Some(Done(p.pid, now)))
      else
        var (head, rest) := Dequeue(Enqueue(rq, p));
        TickResult(rest, head, None)
  }

  /** No task is lost or made up by a tick: the queue and the CPU afterwards
      hold the tasks held before, with the CPU task advanced by one tick,
      less the task that completed, if any. */
  lemma TickConserves(now: u32, rq: seq<Pcb>, cpu: Option<Pcb>)
    ensures var r := RrTick(now, rq, cpu);
            multiset(r.rq + CpuSeq(r.cpu)) + Retired(cpu, r.done)
            == multiset(rq + CpuSeq(AdvanceCpu(cpu)))
  {
  }

  /** A sole unfinished task is requeued and dispatched again in the same
      tick, leaving the ready queue empty. */
  lemma SoleTaskRedispatched(now: u32, p: Pcb)
    requires !Finished(Advance(p))
    ensures RrTick(now, [], Some(p)) == TickResult([], Some(Advance(p)), None)
  {
    var r := RrTick(now, [], Some(p));
    assert [r.cpu.value] + r.rq == [Advance(p)];
  }

  /** With other tasks waiting, an unfinished task never keeps the CPU: the
      task at the head of the queue takes it and the old task waits last. */
  lemma UnfinishedTaskYields(now: u32, rq: seq<Pcb>, p: Pcb)
    requires rq != [] && !Finished(Advance(p))
    ensures RrTick(now, rq, Some(p)).cpu == Some(rq[0])
    ensures RrTick(now, rq, Some(p)).rq == rq[1..] + [Advance(p)]
  {
    var r := RrTick(now, rq, Some(p));
    assert ([r.cpu.value] + r.rq)[0] == (rq + [Advance(p)])[0];
    assert r.rq == ([r.cpu.value] + r.rq)[1..];
  }

  /** The completed task leaves the scheduler: when no waiting task shares
      its pid, no task with that pid is left in the queue or the CPU. */
  lemma CompletedTaskGone(now: u32, rq: seq<Pcb>, p: Pcb)
    requires Finished(Advance(p))
    requires PidAbsent(rq, p.pid)
    ensures PidAbsent(RrTick(now, rq, Some(p)).rq + CpuSeq(RrTick(now, rq, Some(p)).cpu), p.pid)
  {
    var r := RrTick(now, rq, Some(p));
    TickConserves(now, rq, Some(p));
    RetiredGone(rq, r.rq + CpuSeq(r.cpu), Some(p), r.done);
  }

  /** Ticks at the clock values `times`, in turn, from the queue `rq` and the
      CPU slot `cpu`, with no arrivals in between; the completion events in
      the order they were emitted. */
  function RrRun(times: seq<u32>, rq: seq<Pcb>, cpu: Option<Pcb>): seq<Done>
    decreases |times|
  {
    if times == [] then []
    else
      var r := RrTick(times[0], rq, cpu);
      (if r.done.Some? then [r.done.value] else []) + RrRun(times[1..], r.rq, r.cpu)
  }

  /** The first of a run of ticks for a sole unfinished task: the rest of the
      run starts with the advanced task in the CPU and nothing waiting. */
  lemma RunStep(times: seq<u32>, p: Pcb)
    requires times != [] && !Finished(Advance(p))
    ensures RrRun(times, [], Some(p)) == RrRun(times[1..], [], Some(Advance(p)))
  {
    SoleTaskRedispatched(times[0], p);
  }

  /** The last tick of a run, for a task that finishes on it alone: its
      completion is the only event. */
  lemma LastTick(times: seq<u32>, p: Pcb)
    requires |times| == 1 && Finished(Advance(p))
    ensures RrRun(times, [], Some(p)) == [Done(p.pid, times[0])]
  {
    assert times[1..] == [];
    assert RrRun(times[1..], [], None) == [];
  }

  /** A task running alone completes at the first tick after which its
      elapsed time reaches its required time, and not before: over exactly
      that many ticks the only event is its completion, stamped with the
      clock of the last tick. */
  lemma {:induction false} SoleTaskCompletesOnTime(times: seq<u32>, p: Pcb)
    requires |times| == TicksLeft(p)
    ensures RrRun(times, [], Some(p)) == [Done(p.pid, times[|times| - 1])]
    decreases |times|
  {
    if |times| == 1 {
      LastTick(times, p);
    } else {
      var rest := times[1..];
      RunStep(times, p);
      SoleTaskCompletesOnTime(rest, Advance(p));
      assert rest[|rest| - 1] == times[|times| - 1];
    }
  }
}
