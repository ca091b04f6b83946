/**
 Process records, FIFO ready queues and completion events shared by the
 three scheduling policies (round robin, shortest job first, MLFQ).

 A ready queue is a `seq<Pcb>` with insertion at the tail and removal at
 the head; a queue operation that finds nothing returns `None` where the C
 code returns NULL. The one-slot CPU is an `Option<Pcb>`.
 */
module Process {

  /** Unsigned 32-bit values: the simulation clock and message timestamps. */
  type u32 = x: int | 0 <= x < 0x1_0000_0000

  /** Length of one scheduler tick in milliseconds. */
  const TicksMs: nat := 10

  datatype Option<T> = None | Some(value: T)

  /** A process control block: identity, required run time and time run so far. */
  datatype Pcb = Pcb(pid: int, timeMs: nat, elapsedMs: nat)

  /** The completion message `{pid, DONE, time}` sent when a task finishes. */
  datatype Done = Done(pid: int, timeMs: u32)

  /** What one tick of a single-queue policy leaves behind: the ready queue,
      the CPU slot and the completion event it emitted, if any. */
  datatype TickResult = TickResult(rq: seq<Pcb>, cpu: Option<Pcb>, done: Option<Done>)

  /** The CPU task after running for one more tick. */
  function Advance(p: Pcb): Pcb {
    p.(elapsedMs := p.elapsedMs + TicksMs)
  }

  function AdvanceCpu(cpu: Option<Pcb>): Option<Pcb> {
    if cpu.Some? then Some(Advance(cpu.value)) else None
  }

  /** A task is finished once its elapsed time has reached its required time. */
  predicate Finished(p: Pcb) {
    p.elapsedMs >= p.timeMs
  }

  /** The number of ticks a task must spend in the CPU before it completes:
      it completes on the first tick after which its elapsed time has reached
      its required time, and it always runs at least one tick. */
  function TicksLeft(p: Pcb): (n: nat)
    ensures n >= 1
    ensures n == 1 <==> Finished(Advance(p))
    decreases p.timeMs - p.elapsedMs
  {
    if Finished(Advance(p)) then 1 else 1 + TicksLeft(Advance(p))
  }

  /** The tick count in closed form: one tick when a single tick suffices,
      otherwise the remaining time divided by the tick length, rounded up. */
  lemma {:induction false} TicksLeftClosedForm(p: Pcb)
    ensures TicksLeft(p) == if p.timeMs <= p.elapsedMs + TicksMs then 1
                            else (p.timeMs - p.elapsedMs + TicksMs - 1) / TicksMs
    decreases p.timeMs - p.elapsedMs
  {
    if !Finished(Advance(p)) {
      TicksLeftClosedForm(Advance(p));
    }
  }

  /** The CPU slot seen as a queue of length zero or one. */
  function CpuSeq(cpu: Option<Pcb>): seq<Pcb> {
    if cpu.Some? then [cpu.value] else []
  }

  /** The task whose completion `done` reports, as a bag of zero or one. */
  function Retired(cpu: Option<Pcb>, done: Option<Done>): multiset<Pcb> {
    if done.Some? && cpu.Some? then multiset{Advance(cpu.value)} else multiset{}
  }

  function Enqueue(q: seq<Pcb>, p: Pcb): seq<Pcb> {
    q + [p]
  }

  /** Removes the head of `q`; `None` and the empty queue when `q` is empty. */
  function Dequeue(q: seq<Pcb>): (r: (Option<Pcb>, seq<Pcb>))
    ensures r.0.None? <==> q == []
    ensures q == [] ==> r.1 == []
    ensures q != [] ==> r.0 == Some(q[0]) && [q[0]] + r.1 == q
  {
    if q == [] then (None, []) else (Some(q[0]), q[1..])
  }

  /** The loop `while ((p = dequeue(src))) enqueue(dst, p)`: moves every task
      of `src`, head first, to the tail of `dst`. */
  function Drain(dst: seq<Pcb>, src: seq<Pcb>): (r: seq<Pcb>)
    ensures r == dst + src
    decreases |src|
  {
    var (head, rest) := Dequeue(src);
    if head.None? then dst else Drain(Enqueue(dst, head.value), rest)
  }

  /** Every task that `xs` holds has a pid different from `pid`. */
  predicate PidAbsent(xs: seq<Pcb>, pid: int) {
    forall i :: 0 <= i < |xs| ==> xs[i].pid != pid
  }

  /** If two queues hold the same bag of tasks, a pid absent from one is
      absent from the other. */
  lemma PidAbsentPermutation(xs: seq<Pcb>, ys: seq<Pcb>, pid: int)
    requires multiset(xs) == multiset(ys)
    requires PidAbsent(xs, pid)
    ensures PidAbsent(ys, pid)
  {
    forall i | 0 <= i < |ys|
      ensures ys[i].pid != pid
    {
      assert ys[i] in multiset(ys);
      assert ys[i] in xs;
    }
  }

  /** A task that completes in a tick leaves the scheduler: if a tick keeps
      every other task and no other task had its pid, no task with that pid
      is left. */
  lemma RetiredGone(before: seq<Pcb>, after: seq<Pcb>, cpu: Option<Pcb>, done: Option<Done>)
    requires cpu.Some? && done.Some?
    requires multiset(after) + Retired(cpu, done) == multiset(before + CpuSeq(AdvanceCpu(cpu)))
    requires PidAbsent(before, cpu.value.pid)
    ensures PidAbsent(after, cpu.value.pid)
  {
    assert Retired(cpu, done) == multiset{Advance(cpu.value)};
    var x := Advance(cpu.value);
    assert multiset(before + CpuSeq(AdvanceCpu(cpu))) == multiset(before) + multiset{x};
    assert multiset(after) == (multiset(after) + multiset{x}) - multiset{x};
    assert multiset(before) == (multiset(before) + multiset{x}) - multiset{x};
    PidAbsentPermutation(before, after, cpu.value.pid);
  }
}
