/**
  The queue fields of the background services, updated in place as the server
  does it.  Each method is the code a goroutine runs between two points where
  it may block, and is proved to take the protocol step of the same meaning.
 */
module BackgroundServices {
  import opened Basics
  import opened QueueProtocol

  lemma {:induction false} RemoveFirstAt(xs: seq<Chan>, x: Chan, i: nat)
    requires i <= |xs| && (i < |xs| ==> xs[i] == x) && forall j :: 0 <= j < i ==> xs[j] != x
    ensures RemoveFirst(xs, x) == if i < |xs| then xs[..i] + xs[i + 1..] else xs
  {
    if i > 0 {
      RemoveFirstAt(xs[1..], x, i - 1);
    }
  }

  class Services {
    var world: World
    var queueDone: Option<Chan>
    var queueDones: seq<Chan>
    var queueDeferred: Option<Chan>
    var queueCancel: Option<nat>
    var lock: Lock
    var rootLive: bool
    var shutdown: Shutdown
    var cfg: nat
    var requested: nat
    var attempted: nat
    var asked: nat
    var answered: nat

    function View(): State
      reads this
    {
      State(world, queueDone, queueDones, queueDeferred, queueCancel,
            lock, rootLive, shutdown, cfg, requested, attempted, asked, answered)
    }

    /** The services as the server boots them, in production mode. */
    constructor (build: Build)
      ensures View() == Boot(build) && Inv(View())
    {
      world, queueDone, queueDones := World([], []), None, [];
      queueDeferred, queueCancel, lock := None, None, Free;
      rootLive, shutdown, cfg, requested, attempted, asked, answered := true, NotStarted, 0, 0, 0, 0, 0;
      new;
      var err := StartQueueProcessorLocked(build);
      BootInv(build);
    }

    method StopQueueProcessorLocked() returns (done: Option<Chan>)
      modifies this
      ensures done == old(queueDone) && View() == Stop(old(View()))
    {
      done := queueDone;
      if queueCancel.Some? {
        world := world.Cancel(queueCancel);
      }
      queueCancel := None;
      queueDone := None;
    }

    method RemoveQueueDoneLocked(done: Option<Chan>)
      modifies this
      ensures View() == Remove(old(View()), done)
    {
      if done.None? {
        return;
      }
      var i := 0;
      while i < |queueDones| && queueDones[i] != done.value
        invariant 0 <= i <= |queueDones|
        invariant forall j :: 0 <= j < i ==> queueDones[j] != done.value
      {
        i := i + 1;
      }
      RemoveFirstAt(queueDones, done.value, i);
      if i < |queueDones| {
        queueDones := queueDones[..i] + queueDones[i + 1..];
      }
    }

    method StartQueueProcessorLocked(build: Build) returns (err: bool)
      modifies this
      ensures err == (rootLive && build.BuildError?)
      ensures View() == Start(old(View()), build)
    {
      if !rootLive {
        return false;
      }
      attempted, answered := cfg, asked;
      if build.BuildError? {
        return true;
      }
      if build.NoWorkers? {
        queueDone := None;
        return false;
      }
      var g := |world.gens|;
      world := world.(gens := world.gens + [Gen(Running, false, cfg, Slot(0, 0), None)]);
      queueCancel := Some(g);
      queueDone := Some(Done(g));
      queueDones := queueDones + [Done(g)];
      return false;
    }

    method DeferQueueRestartLocked(oldDone: Chan)
      modifies this
      ensures View() == Defer(old(View()), oldDone)
    {
      if queueDeferred == Some(oldDone) {
        queueDone := Some(oldDone);
        return;
      }
      var forward := Forward(|world.conts|);
      RemoveQueueDoneLocked(Some(oldDone));
      queueDones := queueDones + [forward];
      queueDone := Some(forward);
      queueDeferred := Some(forward);
      world := world.Spawn(oldDone);
    }

    /** A restart takes the mutex, stops the generation and starts waiting. */
    method BeginRestart()
      requires Inv(View()) && lock.Free?
      modifies this
      ensures View() == Apply(old(View()), RestartBegin) && Inv(View())
    {
      StepInv(View(), RestartBegin);
      requested, asked := cfg, asked + 1;
      var oldDone := StopQueueProcessorLocked();
      lock := Restarting(oldDone);
    }

    /** The rest of the restart: `exited` tells whether the wait received the
        old generation's exit or hit the deadline. */
    method EndRestart(exited: bool, build: Build) returns (err: bool)
      requires Inv(View()) && lock.Restarting?
      requires exited ==> lock.oldDone.None? || world.IsFull(lock.oldDone.value)
      requires !exited ==> lock.oldDone.Some?
      modifies this
      ensures View() == Apply(old(View()), if exited then RestartFinish(build) else RestartTimeout)
      ensures Inv(View())
    {
      StepInv(View(), if exited then RestartFinish(build) else RestartTimeout);
      var oldDone := lock.oldDone;
      lock := Free;
      if !exited {
        DeferQueueRestartLocked(oldDone.value);
        return false;
      }
      if oldDone.Some? {
        world := world.Receive(oldDone.value);
      }
      RemoveQueueDoneLocked(oldDone);
      if oldDone.Some? && queueDeferred == oldDone {
        queueDeferred := None;
      }
      err := StartQueueProcessorLocked(build);
    }

    /** The critical section of a continuation that has published its exit. */
    method FinishDeferredQueueRestart(k: nat, build: Build)
      requires Inv(View()) && Enabled(View(), ContFinish(k, build))
      modifies this
      ensures View() == Apply(old(View()), ContFinish(k, build)) && Inv(View())
    {
      hide Inv;
      StepInv(View(), ContFinish(k, build));
      world := world.ContAt(k, Finished);
      if queueDeferred == Some(Forward(k)) {
        queueDeferred := None;
      }
      if queueDone != Some(Forward(k)) {
        return;
      }
      world := world.Receive(Forward(k));
      RemoveQueueDoneLocked(Some(Forward(k)));
      queueDone := None;
      var err := StartQueueProcessorLocked(build);
    }

    /** Shutdown stops the generation and copies the tracking list. */
    method BeginShutdown()
      requires Inv(View()) && Enabled(View(), ShutdownBegin)
      modifies this
      ensures View() == Apply(old(View()), ShutdownBegin) && Inv(View())
    {
      StepInv(View(), ShutdownBegin);
      var left := queueDones;
      var done := StopQueueProcessorLocked();
      shutdown := Draining(left);
    }

    /** One turn of the shutdown loop, once its channel holds a value. */
    method ReceiveNext()
      requires Inv(View()) && Enabled(View(), ShutdownReceive)
      modifies this
      ensures View() == Apply(old(View()), ShutdownReceive) && Inv(View())
    {
      hide Inv;
      StepInv(View(), ShutdownReceive);
      world := world.Receive(shutdown.left[0]);
      shutdown := Draining(shutdown.left[1..]);
    }

    /** The shutdown loop, run to its end once every channel it waits for holds
        a value: each is received exactly once. */
    method DrainQueues()
      requires Inv(View()) && shutdown.Draining?
      requires forall c :: c in shutdown.left ==> world.IsFull(c)
      modifies this
      ensures Inv(View()) && shutdown == Draining([])
      ensures forall c :: old(world).Exists(c) ==>
                world.Exists(c) && world.SlotOf(c).sent == old(world).SlotOf(c).sent &&
                world.SlotOf(c).received ==
                old(world).SlotOf(c).received + (if c in old(shutdown.left) then 1 else 0)
    {
      while shutdown.left != []
        invariant Inv(View()) && shutdown.Draining?
        invariant forall c :: c in shutdown.left ==> world.IsFull(c)
        invariant shutdown.left == [] || (world == old(world) && shutdown == old(shutdown))
        invariant forall c :: old(world).Exists(c) ==>
                    world.Exists(c) && world.SlotOf(c).sent == old(world).SlotOf(c).sent &&
                    world.SlotOf(c).received ==
                    old(world).SlotOf(c).received +
                    (if c in old(shutdown.left) && c !in shutdown.left then 1 else 0)
        decreases |shutdown.left|
      {
        assert shutdown.left == [shutdown.left[0]];
        ReceiveNext();
      }
    }
  }
}
