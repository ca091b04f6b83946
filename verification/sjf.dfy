/**
 Non-preemptive shortest job first. The running task advances one tick and
 keeps the CPU until it finishes; an empty CPU takes the task with the
 smallest required time, found by emptying the ready queue once while
 holding the best task so far and parking every other task in an auxiliary
 queue, which is then moved back.

 The move back does not keep the waiting tasks in their old order: a task
 that was the shortest so far and is displaced by a shorter one is parked
 behind the tasks seen since it (see `ReorderExample`).
 */
module Sjf {
  import opened Process

  /** Index of the first task with the smallest required time. */
  function FirstMinIndex(q: seq<Pcb>): (k: nat)
    requires q != []
    ensures k < |q|
    ensures forall j :: 0 <= j < |q| ==> q[k].timeMs <= q[j].timeMs
    ensures forall j :: 0 <= j < k ==> q[k].timeMs < q[j].timeMs
    decreases |q|
  {
    if |q| == 1 then 0
    else
      var k := FirstMinIndex(q[..|q| - 1]);
      if q[|q| - 1].timeMs < q[k].timeMs then |q| - 1 else k
  }

  /** The shortest task among the first `j` tasks of `q`: the one the scan
      holds after it has dequeued `j` tasks. */
  function RunningMin(q: seq<Pcb>, j: nat): Pcb
    requires 1 <= j <= |q|
  {
    q[FirstMinIndex(q[..j])]
  }

  /** The task the scan parks in the auxiliary queue when it dequeues `q[j]`:
      the displaced shortest-so-far when `q[j]` is strictly shorter, `q[j]`
      itself otherwise. */
  function Parked(q: seq<Pcb>, j: nat): Pcb
    requires 1 <= j < |q|
  {
    var m := RunningMin(q, j);
    if q[j].timeMs < m.timeMs then m else q[j]
  }

  /** One pass of the first loop's body: the dequeued task `curr` either
      becomes the shortest so far (the previous one, if any, is parked) or is
      parked itself; the comparison is strict, so an equal task is parked. */
  function ScanStep(curr: Pcb, shortest: Option<Pcb>, aux: seq<Pcb>): (r: (Option<Pcb>, seq<Pcb>))
    ensures r.0.Some?
    ensures multiset(r.1) + multiset(CpuSeq(r.0))
            == multiset(aux) + multiset(CpuSeq(shortest)) + multiset{curr}
  {
    if shortest.None? then (Some(curr), aux)
    else if curr.timeMs < shortest.value.timeMs then (Some(curr), aux + [shortest.value])
    else (shortest, aux + [curr])
  }

  /** The first loop of the selection: `shortest` is the best task so far,
      `aux` the parked ones, `q[i..]` what is still in the ready queue. */
  function ScanFrom(q: seq<Pcb>, i: nat, shortest: Option<Pcb>, aux: seq<Pcb>): (r: (Option<Pcb>, seq<Pcb>))
    requires i <= |q|
    ensures r.0.None? <==> shortest.None? && i == |q|
    ensures multiset(r.1) + multiset(CpuSeq(r.0))
            == multiset(aux) + multiset(CpuSeq(shortest)) + multiset(q[i..])
    decreases |q| - i
  {
    if i == |q| then (shortest, aux)
    else
      assert q[i..] == [q[i]] + q[i + 1..];
      var (shortest', aux') := ScanStep(q[i], shortest, aux);
      ScanFrom(q, i + 1, shortest', aux')
  }

  /** What the scan holds after dequeuing the first `i` tasks of `q`. */
  predicate ScanInv(q: seq<Pcb>, i: nat, shortest: Option<Pcb>, aux: seq<Pcb>)
    requires i <= |q|
  {
    if i == 0 then shortest == None && aux == []
    else
      && shortest == Some(RunningMin(q, i))
      && |aux| == i - 1
      && forall j :: 1 <= j < i ==> aux[j - 1] == Parked(q, j)
  }

  /** One more dequeued task moves the running minimum as the first-minimum
      index of the longer prefix says. */
  lemma RunningMinStep(q: seq<Pcb>, i: nat)
    requires 1 <= i < |q|
    ensures RunningMin(q, i + 1)
            == if q[i].timeMs < RunningMin(q, i).timeMs then q[i] else RunningMin(q, i)
  {
    assert q[..i + 1][..i] == q[..i];
  }

  /** The loop body keeps `ScanInv`. */
  lemma ScanStepKeepsInv(q: seq<Pcb>, i: nat, shortest: Option<Pcb>, aux: seq<Pcb>)
    requires i < |q| && ScanInv(q, i, shortest, aux)
    ensures var (shortest', aux') := ScanStep(q[i], shortest, aux);
            ScanInv(q, i + 1, shortest', aux')
  {
    var (shortest', aux') := ScanStep(q[i], shortest, aux);
    if i == 0 {
      assert q[..1] == [q[0]];
    } else {
      RunningMinStep(q, i);
      assert aux'[i - 1] == Parked(q, i);
      forall j | 1 <= j < i + 1
        ensures aux'[j - 1] == Parked(q, j)
      {
        if j < i {
          assert aux'[j - 1] == aux[j - 1];
        }
      }
    }
  }

  /** The scan ends holding the first shortest task, with every other task
      parked at the place `Parked` names. */
  lemma {:induction false} ScanSelects(q: seq<Pcb>, i: nat, shortest: Option<Pcb>, aux: seq<Pcb>)
    requires i <= |q| && ScanInv(q, i, shortest, aux)
    ensures q != [] ==> ScanFrom(q, i, shortest, aux).0 == Some(q[FirstMinIndex(q)])
    ensures q != [] ==> |ScanFrom(q, i, shortest, aux).1| == |q| - 1
    ensures forall j :: 1 <= j < |q| ==> ScanFrom(q, i, shortest, aux).1[j - 1] == Parked(q, j)
    decreases |q| - i
  {
    if i == |q| {
      if q != [] {
        assert q[..|q|] == q;
      }
    } else {
      ScanStepKeepsInv(q, i, shortest, aux);
      var (shortest', aux') := ScanStep(q[i], shortest, aux);
      ScanSelects(q, i + 1, shortest', aux');
    }
  }

  /** `dequeue_shortest_job`: removes and returns the first task with the
      smallest required time, or `None` when the queue is empty. */
  function DequeueShortestJob(rq: seq<Pcb>): (r: (Option<Pcb>, seq<Pcb>))
    ensures r.0.None? <==> rq == []
    ensures rq == [] ==> r.1 == []
    // the selected task is no longer than any task left behind ...
    ensures r.0.Some? ==> forall j :: 0 <= j < |r.1| ==> r.0.value.timeMs <= r.1[j].timeMs
    // ... and on ties it is the earliest one in the queue
    ensures rq != [] ==> r.0 == Some(rq[FirstMinIndex(rq)])
    // the rest is the old queue less exactly the selected task
    ensures multiset(r.1) + multiset(CpuSeq(r.0)) == multiset(rq)
    ensures rq != [] ==> |r.1| == |rq| - 1
  {
    var (shortest, aux) := ScanFrom(rq, 0, None, []);
    ScanSelects(rq, 0, None, []);
    assert rq[0..] == rq;
    var rest := Drain([], aux);
    assert rest == aux;
    MinOverRest(rq, shortest, rest);
    (shortest, rest)
  }

  /** The order of the rest: each dequeued task, or the shortest one it
      displaced, in turn. */
  lemma RestOrder(rq: seq<Pcb>)
    ensures forall j :: 1 <= j < |rq| ==> DequeueShortestJob(rq).1[j - 1] == Parked(rq, j)
  {
    ScanSelects(rq, 0, None, []);
    assert rq[0..] == rq;
  }

  /** A task that is minimal in a queue is minimal among any sub-bag of it. */
  lemma MinOverRest(rq: seq<Pcb>, sel: Option<Pcb>, rest: seq<Pcb>)
    requires multiset(rest) + multiset(CpuSeq(sel)) == multiset(rq)
    requires sel.Some? ==> rq != [] && sel.value == rq[FirstMinIndex(rq)]
    ensures sel.Some? ==> forall j :: 0 <= j < |rest| ==> sel.value.timeMs <= rest[j].timeMs
  {
    if sel.Some? {
      forall j | 0 <= j < |rest|
        ensures sel.value.timeMs <= rest[j].timeMs
      {
        assert rest[j] in multiset(rest);
        assert rest[j] in multiset(rq);
        assert rest[j] in rq;
      }
    }
  }

  /** When the first task is already a shortest one the rest keeps its order. */
  lemma HeadShortestKeepsOrder(rq: seq<Pcb>)
    requires rq != []
    requires forall j :: 0 <= j < |rq| ==> rq[0].timeMs <= rq[j].timeMs
    ensures DequeueShortestJob(rq) == (Some(rq[0]), rq[1..])
  {
    var r := DequeueShortestJob(rq);
    RestOrder(rq);
    forall j | 1 <= j < |rq|
      ensures Parked(rq, j) == rq[j]
    {
      assert rq[..j][0] == rq[0];
    }
    forall i | 0 <= i < |r.1|
      ensures r.1[i] == rq[1..][i]
    {
      assert r.1[(i + 1) - 1] == Parked(rq, i + 1);
    }
    assert r.1 == rq[1..];
  }

  /** The scan over required times 5, 7, 3: the 3 is the first shortest,
      the 7 is parked first and the displaced 5 second. */
  lemma ReorderScan(a: Pcb, b: Pcb, c: Pcb)
    requires a.timeMs == 5 && b.timeMs == 7 && c.timeMs == 3
    ensures FirstMinIndex([a, b, c]) == 2
    ensures Parked([a, b, c], 1) == b && Parked([a, b, c], 2) == a
  {
    var q := [a, b, c];
    assert q[..1] == [a];
    assert q[..2] == [a, b];
    assert q[..2][..1] == [a];
    assert FirstMinIndex(q[..1]) == 0;
    assert FirstMinIndex(q[..2]) == 0;
  }

  /** The restore is not order-preserving: required times 5, 7, 3 select 3
      and leave 7 ahead of 5. */
  lemma ReorderExample()
    ensures var a, b, c := Pcb(1, 5, 0), Pcb(2, 7, 0), Pcb(3, 3, 0);
            DequeueShortestJob([a, b, c]) == (Some(c), [b, a])
  {
    var a, b, c := Pcb(1, 5, 0), Pcb(2, 7, 0), Pcb(3, 3, 0);
    var q := [a, b, c];
    ReorderScan(a, b, c);
    RestOrder(q);
    var r := DequeueShortestJob(q);
    assert r.1[0] == b && r.1[1] == a;
    assert r.1 == [b, a];
  }

  /** One call of the SJF scheduler at clock `now`. */
  function SjfTick(now: u32, rq: seq<Pcb>, cpu: Option<Pcb>): (r: TickResult)
    ensures r.done.Some? <==> cpu.Some? && Finished(Advance(cpu.value))
    ensures r.done.Some? ==> r.done == Some(Done(cpu.value.pid, now))
    // non-preemptive: an unfinished task keeps the CPU and the queue is untouched
    ensures cpu.Some? && !Finished(Advance(cpu.value)) ==>
              r.cpu == Some(Advance(cpu.value)) && r.rq == rq
    // a freed CPU takes the shortest waiting task
    ensures (cpu.None? || Finished(Advance(cpu.value))) ==>
              (r.cpu, r.rq) == DequeueShortestJob(rq) &&
              (r.cpu.None? <==> rq == [])
  {
    if cpu.Some? && !Finished(Advance(cpu.value)) then
      TickResult(rq, Some(Advance(cpu.value)), None)
    else
      var done := if cpu.Some? then Some(Done(cpu.value.pid, now)) else None;
      var (next, rest) := DequeueShortestJob(rq);
      TickResult(rest, next, done)
  }

  /** No task is lost or made up by a tick: the queue and the CPU afterwards
      hold the tasks held before, with the CPU task advanced by one tick,
      less the task that completed, if any. */
  lemma TickConserves(now: u32, rq: seq<Pcb>, cpu: Option<Pcb>)
    ensures var r := SjfTick(now, rq, cpu);
            multiset(r.rq + CpuSeq(r.cpu)) + Retired(cpu, r.done)
            == multiset(rq + CpuSeq(AdvanceCpu(cpu)))
  {
  }

  /** A task that is dispatched is never longer than a task left waiting. */
  lemma DispatchIsShortest(now: u32, rq: seq<Pcb>, cpu: Option<Pcb>)
    requires cpu.None? || Finished(Advance(cpu.value))
    ensures var r := SjfTick(now, rq, cpu);
            r.cpu.Some? ==> r.cpu.value in rq &&
                            forall j :: 0 <= j < |r.rq| ==> r.cpu.value.timeMs <= r.rq[j].timeMs
  {
    var r := SjfTick(now, rq, cpu);
    if r.cpu.Some? {
      assert r.cpu.value == rq[FirstMinIndex(rq)];
    }
  }

  /** The completed task leaves the scheduler: when no waiting task shares
      its pid, no task with that pid is left in the queue or the CPU. */
  lemma CompletedTaskGone(now: u32, rq: seq<Pcb>, p: Pcb)
    requires Finished(Advance(p))
    requires PidAbsent(rq, p.pid)
    ensures PidAbsent(SjfTick(now, rq, Some(p)).rq + CpuSeq(SjfTick(now, rq, Some(p)).cpu), p.pid)
  {
    var r := SjfTick(now, rq, Some(p));
    TickConserves(now, rq, Some(p));
    RetiredGone(rq, r.rq + CpuSeq(r.cpu), Some(p), r.done);
  }

  /** Ticks at the clock values `times`, in turn, from the queue `rq` and the
      CPU slot `cpu`, with no arrivals in between; the completion events in
      the order they were emitted. */
  function SjfRun(times: seq<u32>, rq: seq<Pcb>, cpu: Option<Pcb>): seq<Done>
    decreases |times|, 1
  {
    if times == [] then [] else SjfRunOn(times, SjfTick(times[0], rq, cpu))
  }

  /** The events of a run whose first tick, at clock `times[0]`, left `r`. */
  function SjfRunOn(times: seq<u32>, r: TickResult): seq<Done>
    requires times != []
    decreases |times|, 0
  {
    (if r.done.Some? then [r.done.value] else []) + SjfRun(times[1..], r.rq, r.cpu)
  }

  /** The first of a run of ticks while the running task is unfinished: it
      keeps the CPU, the queue is untouched and nothing is emitted. */
  lemma RunStep(times: seq<u32>, rq: seq<Pcb>, p: Pcb)
    requires times != [] && !Finished(Advance(p))
    ensures SjfRun(times, rq, Some(p)) == SjfRun(times[1..], rq, Some(Advance(p)))
  {
    var r := SjfTick(times[0], rq, Some(p));
    assert r == TickResult(rq, Some(Advance(p)), None);
  }

  /** The last tick of a run, for a task that finishes on it: its
      completion is the only event. */
  lemma LastTick(times: seq<u32>, rq: seq<Pcb>, p: Pcb)
    requires |times| == 1 && Finished(Advance(p))
    ensures SjfRun(times, rq, Some(p)) == [Done(p.pid, times[0])]
  {
    var r := SjfTick(times[0], rq, Some(p));
    assert times[1..] == [];
    assert SjfRun(times[1..], r.rq, r.cpu) == [];
  }

  /** Non-preemption over time: whatever waits in the queue, the running task
      keeps the CPU until the first tick after which its elapsed time reaches
      its required time; over exactly that many ticks the only event is its
      completion, stamped with the clock of the last tick. */
  lemma {:induction false} RunsToCompletion(times: seq<u32>, rq: seq<Pcb>, p: Pcb)
    requires |times| == TicksLeft(p)
    ensures SjfRun(times, rq, Some(p)) == [Done(p.pid, times[|times| - 1])]
    decreases |times|
  {
    if |times| == 1 {
      LastTick(times, rq, p);
    } else {
      var rest := times[1..];
      RunStep(times, rq, p);
      RunsToCompletion(rest, rq, Advance(p));
      assert rest[|rest| - 1] == times[|times| - 1];
    }
  }
}
