/**
  The bounded worker pool that resolves latest versions: one sender hands
  indices over an unbuffered channel to a fixed set of workers, which write
  each result into the slot of its own index.
 */
module WorkerPool {
  import opened Basics

  const MAX_WORKERS := 10

  function WorkerCount(items: nat): nat {
    if items < MAX_WORKERS then items else MAX_WORKERS
  }

  /** A resolver's answer for an item when it did or did not see its context
      cancelled, None if it panics; and the status of an unresolved lookup. */
  datatype Resolver<!T, !V> = Resolver(resolve: (T, bool) -> Option<V>, failed: V)

  function Outcome<T, V>(r: Resolver<T, V>, item: T, saw: bool): V {
    var answer := r.resolve(item, saw);
    if answer.Some? then answer.value else r.failed
  }

  datatype Worker = Ready | Holding(index: nat) | Resolving(index: nat) | Exited

  /** What became of an index so far. */
  datatype Fate = Unsent | Taken(worker: nat) | Dropped | Done(sawCancel: bool)

  datatype State<T, V> = State(
    items: seq<T>, cancelled: bool, next: nat, stopped: bool,
    workers: seq<Worker>, results: seq<V>, fates: seq<Fate>)

  datatype Step = Send(w: nat) | Check(w: nat) | Finish(w: nat, saw: bool) | Exit(w: nat) | Cancel | StopSending

  predicate Enabled<T, V>(s: State<T, V>, step: Step) {
    match step
    case Send(w) => w < |s.workers| && s.workers[w].Ready? && !s.stopped && s.next < |s.items|
    case Check(w) => w < |s.workers| && s.workers[w].Holding?
    case Finish(w, saw) =>
      && w < |s.workers| && s.workers[w].Resolving? && s.workers[w].index < |s.items|
      && s.workers[w].index < |s.results| && s.workers[w].index < |s.fates| && (saw ==> s.cancelled)
    case Exit(w) => w < |s.workers| && s.workers[w].Ready? && (s.stopped || s.next == |s.items|)
    case Cancel => true
    case StopSending => s.cancelled && !s.stopped && s.next < |s.items|
  }

  function Apply<T, V>(r: Resolver<T, V>, s: State<T, V>, step: Step): State<T, V>
    requires Enabled(s, step)
  {
    match step
    case Send(w) =>
      s.(next := s.next + 1, workers := s.workers[w := Holding(s.next)], fates := Mark(s.fates, s.next, Taken(w)))
    case Check(w) =>
      var i := s.workers[w].index;
      if s.cancelled
      then s.(workers := s.workers[w := Ready], fates := Mark(s.fates, i, Dropped))
      else s.(workers := s.workers[w := Resolving(i)])
    case Finish(w, saw) =>
      var i := s.workers[w].index;
      s.(workers := s.workers[w := Ready],
         results := s.results[i := Outcome(r, s.items[i], saw)],
         fates := Mark(s.fates, i, Done(saw)))
    case Exit(w) => s.(workers := s.workers[w := Exited])
    case Cancel => s.(cancelled := true)
    case StopSending => s.(stopped := true)
  }

  function Mark(fates: seq<Fate>, i: nat, fate: Fate): seq<Fate> {
    if i < |fates| then fates[i := fate] else fates
  }

  function Start<T, V>(r: Resolver<T, V>, items: seq<T>): State<T, V> {
    State(items, false, 0, false, seq(WorkerCount(|items|), _ => Ready),
          seq(|items|, _ => r.failed), seq(|items|, _ => Unsent))
  }

  /** The pool returns once every worker has left its loop. */
  predicate Finished<T, V>(s: State<T, V>) {
    forall w :: 0 <= w < |s.workers| ==> s.workers[w].Exited?
  }

  // ----- Invariant -----

  predicate Busy(worker: Worker) {
    worker.Holding? || worker.Resolving?
  }

  /** A slot holds what became of its index; an index leaves the sender once
      and is with exactly the worker that took it. */
  predicate SlotOk<T, V(==)>(r: Resolver<T, V>, s: State<T, V>, i: nat)
    requires i < |s.items| == |s.results| == |s.fates|
  {
    && (s.fates[i].Unsent? <==> i >= s.next)
    && (match s.fates[i]
        case Unsent => s.results[i] == r.failed
        case Taken(w) =>
          s.results[i] == r.failed && w < |s.workers| && Busy(s.workers[w]) && s.workers[w].index == i
        case Dropped => s.results[i] == r.failed && s.cancelled
        case Done(saw) => s.results[i] == Outcome(r, s.items[i], saw) && (saw ==> s.cancelled))
  }

  predicate WorkerOk<T, V>(s: State<T, V>, w: nat)
    requires w < |s.workers|
  {
    && (Busy(s.workers[w]) ==> s.workers[w].index < |s.fates| && s.fates[s.workers[w].index] == Taken(w))
    && (s.workers[w].Exited? ==> s.stopped || s.next == |s.items|)
  }

  predicate Inv<T, V(==)>(r: Resolver<T, V>, s: State<T, V>) {
    && |s.items| == |s.results| == |s.fates| && |s.workers| == WorkerCount(|s.items|) && s.next <= |s.items|
    && (s.stopped ==> s.cancelled)
    && (forall i :: 0 <= i < |s.items| ==> SlotOk(r, s, i))
    && (forall w :: 0 <= w < |s.workers| ==> WorkerOk(s, w))
  }

  lemma StartInv<T, V>(r: Resolver<T, V>, items: seq<T>)
    ensures Inv(r, Start(r, items))
  {
  }

  lemma SlotStep<T, V>(r: Resolver<T, V>, s: State<T, V>, step: Step, i: nat)
    requires Inv(r, s) && Enabled(s, step) && i < |s.items|
    ensures SlotOk(r, Apply(r, s, step), i)
  {
    assert SlotOk(r, s, i);
    if step.Check? || step.Finish? {
      assert WorkerOk(s, step.w);
    }
  }

  lemma WorkerStep<T, V>(r: Resolver<T, V>, s: State<T, V>, step: Step, w: nat)
    requires Inv(r, s) && Enabled(s, step) && w < |s.workers|
    ensures WorkerOk(Apply(r, s, step), w)
  {
    assert WorkerOk(s, w);
    match step
    case Send(_) => assert SlotOk(r, s, s.next);
    case Check(v) => assert WorkerOk(s, v);
    case Finish(v, _) => assert WorkerOk(s, v);
    case _ =>
  }

  lemma StepInv<T, V>(r: Resolver<T, V>, s: State<T, V>, step: Step)
    requires Inv(r, s) && Enabled(s, step)
    ensures Inv(r, Apply(r, s, step))
  {
    var t := Apply(r, s, step);
    forall i | 0 <= i < |t.items| ensures SlotOk(r, t, i) {
      SlotStep(r, s, step, i);
    }
    forall w | 0 <= w < |t.workers| ensures WorkerOk(t, w) {
      WorkerStep(r, s, step, w);
    }
  }

  // ----- Whole runs -----

  ghost predicate IsRun<T, V>(r: Resolver<T, V>, s: State<T, V>, steps: seq<Step>)
    decreases |steps|
  {
    steps == [] || (Enabled(s, steps[0]) && IsRun(r, Apply(r, s, steps[0]), steps[1..]))
  }

  ghost function After<T, V>(r: Resolver<T, V>, s: State<T, V>, steps: seq<Step>): State<T, V>
    requires IsRun(r, s, steps)
    decreases |steps|
  {
    if steps == [] then s else After(r, Apply(r, s, steps[0]), steps[1..])
  }

  lemma {:induction false} RunInv<T, V>(r: Resolver<T, V>, s: State<T, V>, steps: seq<Step>)
    requires Inv(r, s) && IsRun(r, s, steps)
    ensures Inv(r, After(r, s, steps)) && After(r, s, steps).items == s.items
    decreases |steps|
  {
    if steps != [] {
      StepInv(r, s, steps[0]);
      RunInv(r, Apply(r, s, steps[0]), steps[1..]);
    }
  }

  /** The reference: what a sequential loop over the items would return. */
  function Sequential<T, V>(r: Resolver<T, V>, items: seq<T>): seq<V> {
    seq(|items|, i requires 0 <= i < |items| => Outcome(r, items[i], false))
  }

  /** The value is what resolving the item comes to, when the resolver did or did
      not see its context cancelled: its answer, or the failed status if it panics. */
  ghost predicate Resolved<T, V>(r: Resolver<T, V>, item: T, saw: bool, v: V) {
    r.resolve(item, saw) == Some(v) || (r.resolve(item, saw) == None && v == r.failed)
  }

  /** When the pool returns, every slot holds its own item's resolution: the
      resolver's answer, or the failed status for a panic.  Under cancellation it may
      instead hold the answer of a resolver that saw it, or the failed status of a
      skipped item.  Without cancellation the pool is the sequential loop. */
  lemma PoolResults<T, V>(r: Resolver<T, V>, items: seq<T>, steps: seq<Step>)
    requires IsRun(r, Start(r, items), steps) && Finished(After(r, Start(r, items), steps))
    ensures var s := After(r, Start(r, items), steps);
      && |s.results| == |items|
      && (forall i :: 0 <= i < |items| ==>
            Resolved(r, items[i], false, s.results[i]) ||
            (s.cancelled && (s.results[i] == r.failed || Resolved(r, items[i], true, s.results[i]))))
      && (Cancel !in steps ==> !s.cancelled)
      && (!s.cancelled ==>
            (forall i :: 0 <= i < |items| ==> Resolved(r, items[i], false, s.results[i])) &&
            s.results == Sequential(r, items))
  {
    StartInv(r, items);
    RunInv(r, Start(r, items), steps);
    CancelledExactly(r, Start(r, items), steps);
    var s := After(r, Start(r, items), steps);
    forall i | 0 <= i < |items|
      ensures Resolved(r, items[i], false, s.results[i]) ||
              (s.cancelled && (s.results[i] == r.failed || Resolved(r, items[i], true, s.results[i])))
      ensures !s.cancelled ==> s.results[i] == Outcome(r, items[i], false)
    {
      assert WorkerOk(s, 0) && s.workers[0].Exited?;
      assert SlotOk(r, s, i);
    }
  }

  /** The indices that the first n workers have in hand. */
  ghost function InHand<T, V>(s: State<T, V>, n: nat): set<nat> {
    set i: nat | i < |s.fates| && s.fates[i].Taken? && s.fates[i].worker < n
  }

  lemma {:induction false} InHandBounded<T, V>(r: Resolver<T, V>, s: State<T, V>, n: nat)
    requires Inv(r, s) && n <= |s.workers|
    ensures |InHand(s, n)| <= n
  {
    if n > 0 {
      InHandBounded(r, s, n - 1);
      assert WorkerOk(s, n - 1);
      forall i | i in InHand(s, n) && i !in InHand(s, n - 1) ensures Busy(s.workers[n - 1]) && i == s.workers[n - 1].index {
        assert SlotOk(r, s, i);
      }
      if Busy(s.workers[n - 1]) {
        assert InHand(s, n) == InHand(s, n - 1) + {s.workers[n - 1].index};
      } else {
        assert InHand(s, n) == InHand(s, n - 1);
      }
    } else {
      assert InHand(s, n) == {};
    }
  }

  /** At most min(items, 10) items are in workers' hands at any time. */
  lemma PoolBounded<T, V>(r: Resolver<T, V>, items: seq<T>, steps: seq<Step>)
    requires IsRun(r, Start(r, items), steps)
    ensures var s := After(r, Start(r, items), steps);
      |set i: nat | i < |s.fates| && s.fates[i].Taken?| <= if |items| < 10 then |items| else 10
  {
    StartInv(r, items);
    RunInv(r, Start(r, items), steps);
    var s := After(r, Start(r, items), steps);
    InHandBounded(r, s, |s.workers|);
    assert (set i: nat | i < |s.fates| && s.fates[i].Taken?) == InHand(s, |s.workers|) by {
      forall i: nat | i < |s.fates| && s.fates[i].Taken? ensures s.fates[i].worker < |s.workers| {
        assert SlotOk(r, s, i);
      }
    }
  }

  /** The pool is cancelled exactly if its context was, which may happen at any time. */
  lemma {:induction false} CancelledExactly<T, V>(r: Resolver<T, V>, s: State<T, V>, steps: seq<Step>)
    requires IsRun(r, s, steps)
    ensures After(r, s, steps).cancelled <==> s.cancelled || Cancel in steps
    ensures Enabled(After(r, s, steps), Cancel)
    decreases |steps|
  {
    if steps != [] {
      assert steps == [steps[0]] + steps[1..];
      CancelledExactly(r, Apply(r, s, steps[0]), steps[1..]);
    }
  }

  /** How often index i is handed to a worker. */
  ghost function Dispatches<T, V>(r: Resolver<T, V>, s: State<T, V>, steps: seq<Step>, i: nat): nat
    requires IsRun(r, s, steps)
    decreases |steps|
  {
    if steps == [] then 0
    else (if steps[0].Send? && s.next == i then 1 else 0) + Dispatches(r, Apply(r, s, steps[0]), steps[1..], i)
  }

  /** No index is handed out twice. */
  lemma {:induction false} DispatchedOnce<T, V>(r: Resolver<T, V>, s: State<T, V>, steps: seq<Step>, i: nat)
    requires IsRun(r, s, steps)
    ensures Dispatches(r, s, steps, i) <= 1
    ensures i < s.next ==> Dispatches(r, s, steps, i) == 0
    decreases |steps|
  {
    if steps != [] {
      DispatchedOnce(r, Apply(r, s, steps[0]), steps[1..], i);
    }
  }

  /** What is resolved or dropped stays so, and its slot keeps its value. */
  lemma {:induction false} FatesFinal<T, V>(r: Resolver<T, V>, s: State<T, V>, steps: seq<Step>, i: nat)
    requires Inv(r, s) && IsRun(r, s, steps) && i < |s.items| && (s.fates[i].Done? || s.fates[i].Dropped?)
    ensures var t := After(r, s, steps);
      i < |t.fates| == |t.results| && t.fates[i] == s.fates[i] && t.results[i] == s.results[i]
    decreases |steps|
  {
    if steps != [] {
      FateStep(r, s, steps[0], i);
      StepInv(r, s, steps[0]);
      FatesFinal(r, Apply(r, s, steps[0]), steps[1..], i);
    }
  }

  lemma FateStep<T, V>(r: Resolver<T, V>, s: State<T, V>, step: Step, i: nat)
    requires Inv(r, s) && Enabled(s, step) && i < |s.items| && (s.fates[i].Done? || s.fates[i].Dropped?)
    ensures var t := Apply(r, s, step);
      i < |t.fates| == |t.results| == |t.items| && t.fates[i] == s.fates[i] && t.results[i] == s.results[i]
  {
    assert SlotOk(r, s, i);
    if step.Check? || step.Finish? {
      assert WorkerOk(s, step.w);
    }
  }

  /** Busy workers hold different items, each still unresolved. */
  lemma BusyDistinct<T, V>(r: Resolver<T, V>, items: seq<T>, steps: seq<Step>, v: nat, w: nat)
    requires IsRun(r, Start(r, items), steps)
    requires var s := After(r, Start(r, items), steps);
      v < w < |s.workers| && Busy(s.workers[v]) && Busy(s.workers[w])
    ensures var s := After(r, Start(r, items), steps);
      && s.workers[v].index != s.workers[w].index
      && s.workers[v].index < |s.fates| && s.fates[s.workers[v].index] == Taken(v)
      && s.workers[w].index < |s.fates| && s.fates[s.workers[w].index] == Taken(w)
  {
    StartInv(r, items);
    RunInv(r, Start(r, items), steps);
    var s := After(r, Start(r, items), steps);
    assert WorkerOk(s, v) && WorkerOk(s, w);
  }

  // ----- The pool always returns -----

  function WorkerLoad(worker: Worker): nat {
    match worker
    case Exited => 0
    case Ready => 1
    case Resolving(_) => 2
    case Holding(_) => 3
  }

  function Load(workers: seq<Worker>): nat {
    if workers == [] then 0 else WorkerLoad(workers[0]) + Load(workers[1..])
  }

  /** A bound on the steps left, cancellations aside. */
  function Work<T, V>(s: State<T, V>): nat
    requires s.next <= |s.items|
  {
    3 * (|s.items| - s.next) + Load(s.workers) + if s.stopped then 0 else 1
  }

  lemma {:induction false} LoadUpdate(workers: seq<Worker>, w: nat, worker: Worker)
    requires w < |workers|
    ensures Load(workers[w := worker]) == Load(workers) - WorkerLoad(workers[w]) + WorkerLoad(worker)
  {
    if w == 0 {
      assert workers[w := worker][1..] == workers[1..];
    } else {
      LoadUpdate(workers[1..], w - 1, worker);
      assert workers[w := worker][1..] == workers[1..][w - 1 := worker];
    }
  }

  lemma StepWorks<T, V>(r: Resolver<T, V>, s: State<T, V>, step: Step)
    requires s.next <= |s.items| && Enabled(s, step) && step != Cancel
    ensures Apply(r, s, step).next <= |s.items| && Work(Apply(r, s, step)) < Work(s)
  {
    if !step.StopSending? {
      LoadUpdate(s.workers, step.w, Apply(r, s, step).workers[step.w]);
    }
  }

  ghost predicate CanMove<T, V>(s: State<T, V>) {
    exists step :: step != Cancel && Enabled(s, step)
  }

  /** No deadlock: until all workers have exited, somebody can move; and since
      every such move uses up work, the wait always ends. */
  lemma PoolReturns<T, V>(r: Resolver<T, V>, items: seq<T>, steps: seq<Step>)
    requires IsRun(r, Start(r, items), steps)
    ensures var s := After(r, Start(r, items), steps);
      Finished(s) || CanMove(s)
  {
    StartInv(r, items);
    RunInv(r, Start(r, items), steps);
    var s := After(r, Start(r, items), steps);
    if !Finished(s) {
      var w: nat :| w < |s.workers| && !s.workers[w].Exited?;
      assert WorkerOk(s, w);
      match s.workers[w]
      case Holding(_) => assert Enabled(s, Check(w));
      case Resolving(_) => assert Enabled(s, Finish(w, false));
      case Ready =>
        if s.stopped || s.next == |s.items| {
          assert Enabled(s, Exit(w));
        } else {
          assert Enabled(s, Send(w));
        }
    }
  }

  function Moves(steps: seq<Step>): nat {
    if steps == [] then 0 else (if steps[0] == Cancel then 0 else 1) + Moves(steps[1..])
  }

  lemma {:induction false} RunBounded<T, V>(r: Resolver<T, V>, s: State<T, V>, steps: seq<Step>)
    requires s.next <= |s.items| && IsRun(r, s, steps)
    ensures Moves(steps) <= Work(s)
    decreases |steps|
  {
    if steps != [] {
      if steps[0] != Cancel {
        StepWorks(r, s, steps[0]);
      }
      RunBounded(r, Apply(r, s, steps[0]), steps[1..]);
    }
  }
}
