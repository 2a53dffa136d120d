/**
  The gate that lets shutdown wait for manual feed syncs: `beginManualSyncTask`,
  `endManualSyncTask` and the condition-variable loop of `waitManualSyncTasks`.
 */
module ManualSync {

  /** A shutdown waiter: not yet called, asleep on the condition variable, woken
      but not yet holding the mutex again, or returned. */
  datatype Waiter = Idle | Asleep | Woken | Returned

  /** The guarded fields, with the tasks that really run and the waiters. */
  datatype Gate = Gate(running: nat, closed: bool, hasCond: bool, tasks: nat, waiters: seq<Waiter>)

  function Wake(waiters: seq<Waiter>): (r: seq<Waiter>)
    ensures |r| == |waiters|
    ensures forall i :: 0 <= i < |r| ==> r[i] == if waiters[i].Asleep? then Woken else waiters[i]
  {
    if waiters == [] then []
    else [if waiters[0].Asleep? then Woken else waiters[0]] + Wake(waiters[1..])
  }

  datatype Step = Begin | End | Wait(i: nat) | Resume(i: nat)

  /** A task ends only after it began; a waiter calls once and resumes only when
      woken. */
  predicate Enabled(g: Gate, step: Step) {
    match step
    case Begin => true
    case End => g.tasks > 0
    case Wait(i) => i < |g.waiters| && g.waiters[i].Idle?
    case Resume(i) => i < |g.waiters| && g.waiters[i].Woken?
  }

  /** One check of the waiter's loop condition. */
  function Check(g: Gate, i: nat): Gate
    requires i < |g.waiters|
  {
    g.(waiters := g.waiters[i := if g.running > 0 then Asleep else Returned])
  }

  function Apply(g: Gate, step: Step): Gate
    requires Enabled(g, step)
  {
    match step
    case Begin => if g.closed then g else g.(hasCond := true, running := g.running + 1, tasks := g.tasks + 1)
    case End =>
      var h := g.(tasks := g.tasks - 1, running := if g.running > 0 then g.running - 1 else 0);
      if h.hasCond then h.(waiters := Wake(h.waiters)) else h
    case Wait(i) => Check(g.(closed := true, hasCond := true), i)
    case Resume(i) => Check(g, i)
  }

  /** The counter is exact, a sleeping waiter has a task to be woken by, and a
      waiter that returned left no task behind. */
  predicate Inv(g: Gate) {
    && g.running == g.tasks
    && (g.tasks > 0 ==> g.hasCond)
    && (forall i :: 0 <= i < |g.waiters| && g.waiters[i].Asleep? ==> g.running > 0)
    && (forall i :: 0 <= i < |g.waiters| && !g.waiters[i].Idle? ==> g.closed)
    && (forall i :: 0 <= i < |g.waiters| && g.waiters[i].Returned? ==> g.tasks == 0)
  }

  ghost predicate IsRun(g: Gate, steps: seq<Step>)
    decreases |steps|
  {
    steps == [] || (Enabled(g, steps[0]) && IsRun(Apply(g, steps[0]), steps[1..]))
  }

  ghost function After(g: Gate, steps: seq<Step>): Gate
    requires IsRun(g, steps)
    decreases |steps|
  {
    if steps == [] then g else After(Apply(g, steps[0]), steps[1..])
  }

  /** In every run the gate keeps its invariant, so once no task runs no waiter
      sleeps on; and after a waiter has returned no task ever runs again. */
  lemma {:induction false} GateRun(g: Gate, steps: seq<Step>)
    requires Inv(g) && IsRun(g, steps)
    ensures Inv(After(g, steps))
    ensures g.closed ==> After(g, steps).closed && After(g, steps).tasks <= g.tasks
    ensures After(g, steps).tasks == 0 ==>
              forall i :: 0 <= i < |After(g, steps).waiters| ==> !After(g, steps).waiters[i].Asleep?
    ensures (exists i :: 0 <= i < |g.waiters| && g.waiters[i].Returned?) ==> After(g, steps).tasks == 0
    decreases |steps|
  {
    if steps != [] {
      var h := Apply(g, steps[0]);
      assert Inv(h);
      GateRun(h, steps[1..]);
    }
  }

  predicate IsWait(step: Step) { step.Wait? }

  /** How many tasks a run admits, and how many it ends. */
  ghost function Admitted(g: Gate, steps: seq<Step>): nat
    requires IsRun(g, steps)
    decreases |steps|
  {
    if steps == [] then 0
    else (if steps[0].Begin? && !g.closed then 1 else 0) + Admitted(Apply(g, steps[0]), steps[1..])
  }

  function Ended(steps: seq<Step>): nat {
    if steps == [] then 0 else (if steps[0].End? then 1 else 0) + Ended(steps[1..])
  }

  /** Tasks run as admitted and not ended, the first call to wait closes the gate for
      good, and a task may always ask to begin. */
  lemma {:induction false} GateCounts(g: Gate, steps: seq<Step>)
    requires IsRun(g, steps)
    ensures var h := After(g, steps);
      && h.tasks == g.tasks + Admitted(g, steps) - Ended(steps)
      && (h.closed <==> g.closed || exists k :: 0 <= k < |steps| && IsWait(steps[k]))
      && Enabled(h, Begin)
    decreases |steps|
  {
    if steps != [] {
      GateCounts(Apply(g, steps[0]), steps[1..]);
      assert forall k :: 0 < k < |steps| ==> steps[k] == steps[1..][k - 1];
      assert forall k :: 0 <= k < |steps[1..]| ==> steps[1..][k] == steps[k + 1];
    }
  }

  function Ends(n: nat): seq<Step> { if n == 0 then [] else [End] + Ends(n - 1) }

  /** All tasks end, and the last one leaves the waiter awake. */
  lemma {:induction false} EndsWake(g: Gate, i: nat)
    requires Inv(g) && i < |g.waiters| && g.tasks > 0 && (g.waiters[i].Asleep? || g.waiters[i].Woken?)
    ensures IsRun(g, Ends(g.tasks) + [Resume(i)])
    ensures var h := After(g, Ends(g.tasks) + [Resume(i)]);
      h.tasks == 0 && i < |h.waiters| && h.waiters[i].Returned?
    decreases g.tasks
  {
    var h := Apply(g, End);
    assert Inv(h);
    assert (Ends(g.tasks) + [Resume(i)])[1..] == Ends(h.tasks) + [Resume(i)];
    if h.tasks > 0 {
      EndsWake(h, i);
    } else {
      assert Ends(0) + [Resume(i)] == [Resume(i)];
      assert IsRun(Apply(h, Resume(i)), [Resume(i)][1..]);
    }
  }

  /** A caller that waits returns once the tasks that run have ended, or at once if
      there are none. */
  lemma WaiterReturns(g: Gate, i: nat)
    requires Inv(g) && i < |g.waiters| && g.waiters[i].Idle?
    ensures var steps := [Wait(i)] + if g.tasks > 0 then Ends(g.tasks) + [Resume(i)] else [];
      && IsRun(g, steps)
      && var h := After(g, steps);
         h.tasks == 0 && h.closed && i < |h.waiters| && h.waiters[i].Returned?
  {
    var steps := [Wait(i)] + if g.tasks > 0 then Ends(g.tasks) + [Resume(i)] else [];
    var h := Apply(g, Wait(i));
    assert Inv(h);
    if g.tasks > 0 {
      assert steps[1..] == Ends(g.tasks) + [Resume(i)];
      EndsWake(h, i);
      GateRun(h, steps[1..]);
    } else {
      assert steps[1..] == [];
    }
  }

  class ManualGate {
    var running: nat
    var closed: bool
    var hasCond: bool
    var tasks: nat
    var waiters: seq<Waiter>

    function View(): Gate
      reads this
    {
      Gate(running, closed, hasCond, tasks, waiters)
    }

    /** An open gate with no task and some callers that may wait for it later. */
    constructor (callers: nat)
      ensures View() == Gate(0, false, false, 0, seq(callers, _ => Idle)) && Inv(View())
    {
      running, closed, hasCond, tasks := 0, false, false, 0;
      waiters := seq(callers, _ => Idle);
    }

    method BeginManualSyncTask() returns (ok: bool)
      requires Inv(View())
      modifies this
      ensures View() == Apply(old(View()), Begin) && Inv(View())
      ensures ok == !old(closed)
    {
      if closed {
        return false;
      }
      if !hasCond {
        hasCond := true;
      }
      running, tasks := running + 1, tasks + 1;
      return true;
    }

    method EndManualSyncTask()
      requires Inv(View()) && tasks > 0
      modifies this
      ensures View() == Apply(old(View()), End) && Inv(View())
    {
      tasks := tasks - 1;
      if running > 0 {
        running := running - 1;
      }
      if hasCond {
        waiters := Wake(waiters);
      }
    }

    /** `waitManualSyncTasks` up to its first check of the counter. */
    method WaitManualSyncTasks(i: nat)
      requires Inv(View()) && Enabled(View(), Wait(i))
      modifies this
      ensures View() == Apply(old(View()), Wait(i)) && Inv(View())
    {
      closed := true;
      if !hasCond {
        hasCond := true;
      }
      waiters := waiters[i := if running > 0 then Asleep else Returned];
    }

    /** A woken waiter's next turn of the loop: it sleeps again or returns, and it
        returns only when no task is left. */
    method ResumeWait(i: nat)
      requires Inv(View()) && Enabled(View(), Resume(i))
      modifies this
      ensures View() == Apply(old(View()), Resume(i)) && Inv(View())
      ensures waiters[i].Returned? <==> tasks == 0
    {
      waiters := waiters[i := if running > 0 then Asleep else Returned];
    }
  }
}
