/** What the restart protocol guarantees over whole runs. */
module QueueTheorems {
  import opened Basics
  import opened QueueProtocol

  // ----- Runs -----

  ghost predicate IsRun(s: State, steps: seq<Step>)
    decreases |steps|
  {
    steps == [] || (Enabled(s, steps[0]) && IsRun(Apply(s, steps[0]), steps[1..]))
  }

  ghost function After(s: State, steps: seq<Step>): State
    requires IsRun(s, steps)
    decreases |steps|
  {
    if steps == [] then s else After(Apply(s, steps[0]), steps[1..])
  }

  lemma {:induction false} RunInv(s: State, steps: seq<Step>)
    requires Inv(s) && IsRun(s, steps)
    ensures Inv(After(s, steps))
    decreases |steps|
  {
    if steps != [] {
      StepInv(s, steps[0]);
      RunInv(Apply(s, steps[0]), steps[1..]);
    }
  }

  lemma BootRunInv(build: Build, steps: seq<Step>)
    requires IsRun(Boot(build), steps)
    ensures Inv(After(Boot(build), steps))
  {
    BootInv(build);
    RunInv(Boot(build), steps);
  }

  // ----- Safety -----

  /** At most one generation has not delivered its exit, and every older one's
      exit has been received exactly once. */
  lemma AtMostOneLive(build: Build, steps: seq<Step>)
    requires IsRun(Boot(build), steps)
    ensures var gens := After(Boot(build), steps).world.gens;
      && (forall g, h | 0 <= g < |gens| && 0 <= h < |gens| ::
            !gens[g].phase.Delivered? && !gens[h].phase.Delivered? ==> g == h)
      && (forall g :: 0 <= g < |gens| - 1 ==> gens[g].phase.Delivered? && gens[g].slot == Slot(1, 1))
  {
    BootRunInv(build, steps);
    var w := After(Boot(build), steps).world;
    forall g | 0 <= g < |w.gens| - 1 ensures w.gens[g].slot == Slot(1, 1) {
      assert w.GenOk(g);
    }
  }

  /** Shutting down before the root context ended would break this: the restart
      that follows finds nothing to wait for and starts a second generation. */
  lemma RootCancelIsNeeded()
    ensures
      var s0 := Boot(Workers);
      && CanStep(s0, ShutdownBegin) && !Enabled(s0, ShutdownBegin)
      && var s1 := Apply(s0, ShutdownBegin);
      && Enabled(s1, RestartBegin)
      && var s2 := Apply(s1, RestartBegin);
      && Enabled(s2, RestartFinish(Workers))
      && var s3 := Apply(s2, RestartFinish(Workers));
      |s3.world.gens| == 2 && s3.world.gens[0].phase.Running? && s3.world.gens[1].phase.Running?
  {
    var s1 := Apply(Boot(Workers), ShutdownBegin);
    var s2 := Apply(s1, RestartBegin);
    assert ForgetOld(s2, None) == s2;
  }

  /** Every channel is sent to and received from at most once, no send ever
      blocks, and a continuation that finds its own channel still tracked never
      blocks on it while it holds the mutex. */
  lemma ChannelsUsedOnce(build: Build, steps: seq<Step>, c: Chan)
    requires IsRun(Boot(build), steps)
    requires After(Boot(build), steps).world.Exists(c)
    ensures var s := After(Boot(build), steps);
      && s.world.SlotOf(c).received <= s.world.SlotOf(c).sent <= 1
      && (c.Done? && GenIn(s, c.g, Returned) ==> s.world.HasRoom(c))
      && (c.Forward? && ContIn(s, c.k, Holding) ==> s.world.HasRoom(c))
      && (c.Forward? && ContIn(s, c.k, Published) && s.lock.Free? && s.queueDone == Some(c) ==> s.world.IsFull(c))
  {
    BootRunInv(build, steps);
    var s := After(Boot(build), steps);
    match c
    case Done(g) => assert s.world.GenOk(g);
    case Forward(k) =>
      assert s.world.ContOk(k);
      if s.lock.Free? && s.queueDone == Some(c) {
        assert c in OptionSeq(Tracked(s));
        if s.shutdown.NotStarted? { assert s.world.Open(c); }
      }
  }

  /** The tracking list holds exactly the tracked channel, so never two. */
  lemma TracksAtMostOne(build: Build, steps: seq<Step>)
    requires IsRun(Boot(build), steps)
    requires After(Boot(build), steps).shutdown.NotStarted?
    ensures var s := After(Boot(build), steps);
      && s.queueDones == OptionSeq(Tracked(s))
      && (forall c :: s.world.Open(c) <==> Tracked(s) == Some(c))
  {
    BootRunInv(build, steps);
    var s := After(Boot(build), steps);
    forall c ensures s.world.Open(c) <==> Tracked(s) == Some(c) {
      assert s.world.Open(c) <==> c in Unread(s);
    }
  }

  // ----- No replacement is lost -----

  /** The continuation through which the stopped generation will be replaced. */
  ghost predicate Pending(s: State, k: nat) {
    && k < |s.world.conts|
    && s.queueDone == s.queueDeferred == Some(Forward(k))
    && !s.world.conts[k].phase.Finished?
    && s.world.conts[k].slot.received == 0
  }

  /** It is pending and no other continuation's result is still to be read. */
  ghost predicate OnlyPending(s: State, k: nat) {
    Pending(s, k) && forall j :: 0 <= j < |s.world.conts| && s.world.conts[j].slot.received == 0 ==> j == k
  }

  /** While the root context lives and the mutex is free: either a start attempt has
      followed the latest restart request, from settings at least as new, or exactly
      one continuation is still to make it, and never both; and a generation that has
      not been cancelled was built from settings at least as new. */
  lemma NoReplacementLost(build: Build, steps: seq<Step>)
    requires IsRun(Boot(build), steps)
    requires var s := After(Boot(build), steps); s.lock.Free? && s.rootLive
    ensures var s := After(Boot(build), steps);
      && (if s.asked == s.answered then s.requested <= s.attempted && forall k :: !Pending(s, k)
          else exists k :: OnlyPending(s, k))
      && (forall g :: 0 <= g < |s.world.gens| && !s.world.gens[g].cancelled ==>
            s.asked == s.answered && s.world.gens[g].settings >= s.requested && s.queueDone == Some(Done(g)))
  {
    BootRunInv(build, steps);
    var s := After(Boot(build), steps);
    if s.asked != s.answered {
      var k := s.queueDone.value.k;
      assert Forward(k) in Unread(s);
      assert s.world.Open(Forward(k));
      assert Pending(s, k);
      forall j | 0 <= j < |s.world.conts| && s.world.conts[j].slot.received == 0 ensures j == k {
        assert s.world.Open(Forward(j));
      }
      assert OnlyPending(s, k);
    }
  }

  /** The pending continuation makes its attempt from the then-current settings
      as soon as its generation has exited and the mutex is free. */
  lemma PendingReplaces(s: State, k: nat, build: Build)
    requires Inv(s) && Pending(s, k) && s.lock.Free? && s.rootLive
    requires s.world.conts[k].phase.Published?
    ensures Enabled(s, ContFinish(k, build))
    ensures var t := Apply(s, ContFinish(k, build));
      && t.attempted == s.cfg >= t.requested && t.answered == t.asked
      && t.queueDeferred.None?
      && (build.Workers? ==> t.queueDone == Some(Done(|s.world.gens|)) &&
                             t.world.gens[|s.world.gens|].settings == s.cfg)
      && (!build.Workers? ==> t.queueDone.None?)
  {
    assert s.world.ContOk(k);
  }

  /** A restart whose wait has ended starts the replacement itself. */
  lemma RestartReplaces(s: State, build: Build)
    requires Inv(s) && Enabled(s, RestartFinish(build)) && s.rootLive
    ensures var t, g := Apply(s, RestartFinish(build)), |s.world.gens|;
      && t.lock.Free? && t.queueDeferred.None?
      && t.attempted == s.cfg >= t.requested && t.answered == t.asked
      && (build.Workers? ==>
            && t.queueDone == Some(Done(g)) && t.queueCancel == Some(g)
            && |t.world.gens| == g + 1 && t.world.gens[g] == Gen(Running, false, s.cfg, Slot(0, 0), None))
      && (!build.Workers? ==> t.queueDone.None? && |t.world.gens| == g)
  {
    if s.lock.oldDone.Some? {
      assert s.lock.oldDone.value in Unread(s);
    }
  }

  // ----- Attempts and generations over whole runs -----

  /** The step builds a processor: a restart whose wait has ended, or a continuation
      that nobody has overtaken, while the root context lives. */
  predicate Attempts(s: State, step: Step) {
    s.rootLive && (step.RestartFinish? || (step.ContFinish? && s.queueDone == Some(Forward(step.k))))
  }

  /** What the latest attempt of a run built, when `last` was built before it. */
  ghost function LatestBuild(s: State, steps: seq<Step>, last: Build): Build
    requires IsRun(s, steps)
    decreases |steps|
  {
    if steps == [] then last
    else LatestBuild(Apply(s, steps[0]), steps[1..], if Attempts(s, steps[0]) then steps[0].build else last)
  }

  /** How many attempts of a run built a processor with workers. */
  ghost function WorkersBuilt(s: State, steps: seq<Step>): nat
    requires IsRun(s, steps)
    decreases |steps|
  {
    if steps == [] then 0
    else (if Attempts(s, steps[0]) && steps[0].build.Workers? then 1 else 0) + WorkersBuilt(Apply(s, steps[0]), steps[1..])
  }

  /** The latest attempt, if it built workers, left the newest generation, which is
      the tracked and running one until somebody asks for a restart again. */
  ghost predicate Served(s: State, last: Build) {
    last.Workers? ==>
      && |s.world.gens| > 0
      && s.world.gens[|s.world.gens| - 1].settings == s.attempted
      && (s.asked == s.answered && s.shutdown.NotStarted? ==>
            s.queueCancel == Some(|s.world.gens| - 1) && s.queueDone == Some(Done(|s.world.gens| - 1)))
  }

  lemma AttemptServes(s: State, step: Step, last: Build)
    requires Inv(s) && Enabled(s, step) && Served(s, last) && Attempts(s, step)
    ensures Served(Apply(s, step), step.build)
    ensures |Apply(s, step).world.gens| == |s.world.gens| + if step.build.Workers? then 1 else 0
  {
    hide TracksOpen, Cancels, DefersOne;
    match step
    case RestartFinish(build) => RestartReplaces(s, build);
    case ContFinish(k, build) =>
      assert s.world.ContOk(k);
  }

  /** Only an attempt adds a generation. */
  lemma OthersKeepGens(s: State, step: Step)
    requires Inv(s) && Enabled(s, step) && !Attempts(s, step)
    ensures var t := Apply(s, step);
      && t.attempted == s.attempted && |t.world.gens| == |s.world.gens|
      && forall g :: 0 <= g < |s.world.gens| ==> t.world.gens[g].settings == s.world.gens[g].settings
  {
    hide TracksOpen, Cancels, DefersOne, Current;
    if step.ContTake? { assert s.world.ContOk(step.k); }
  }

  /** Only a restart or the shutdown stops tracking a generation. */
  lemma OthersKeepTracking(s: State, step: Step)
    requires Inv(s) && Enabled(s, step) && !Attempts(s, step)
    ensures var t := Apply(s, step);
      t.asked == t.answered && t.shutdown.NotStarted? ==>
        && s.asked == s.answered && s.shutdown.NotStarted?
        && t.queueCancel == s.queueCancel && t.queueDone == s.queueDone
  {
    hide TracksOpen, Cancels, DefersOne;
  }

  lemma OthersServe(s: State, step: Step, last: Build)
    requires Inv(s) && Enabled(s, step) && Served(s, last) && !Attempts(s, step)
    ensures Served(Apply(s, step), last) && |Apply(s, step).world.gens| == |s.world.gens|
  {
    hide Inv, Apply, Attempts, Enabled;
    OthersKeepGens(s, step);
    OthersKeepTracking(s, step);
  }

  lemma {:induction false} RunServed(s: State, steps: seq<Step>, last: Build)
    requires Inv(s) && IsRun(s, steps) && Served(s, last)
    ensures Served(After(s, steps), LatestBuild(s, steps, last))
    ensures |After(s, steps).world.gens| == |s.world.gens| + WorkersBuilt(s, steps)
    decreases |steps|
  {
    if steps != [] {
      hide Inv, Served, Apply, Enabled, Attempts;
      StepInv(s, steps[0]);
      if Attempts(s, steps[0]) {
        AttemptServes(s, steps[0], last);
        RunServed(Apply(s, steps[0]), steps[1..], steps[0].build);
      } else {
        OthersServe(s, steps[0], last);
        RunServed(Apply(s, steps[0]), steps[1..], last);
      }
    }
  }

  /** Every attempt that builds workers starts a generation and nothing else does; and
      the generation of the latest attempt runs on that attempt's settings, tracked and
      not cancelled unless a restart or the shutdown has come since. */
  lemma EveryAttemptStarts(build: Build, steps: seq<Step>)
    requires IsRun(Boot(build), steps)
    ensures var s := After(Boot(build), steps);
      && |s.world.gens| == WorkersBuilt(Boot(build), steps) + (if build.Workers? then 1 else 0)
      && (LatestBuild(Boot(build), steps, build).Workers? ==>
            var g := |s.world.gens| - 1;
            && g >= 0 && s.world.gens[g].settings == s.attempted
            && (s.asked == s.answered && s.shutdown.NotStarted? ==>
                  s.queueDone == Some(Done(g)) && !s.world.gens[g].cancelled))
  {
    BootInv(build);
    BootRunInv(build, steps);
    RunServed(Boot(build), steps, build);
  }

  function Times(steps: seq<Step>, step: Step): nat {
    if steps == [] then 0 else (if steps[0] == step then 1 else 0) + Times(steps[1..], step)
  }

  /** The counters that the other theorems speak of are those of the run itself: the
      settings version counts the changes, which may come at any time, and the
      requests count the restarts; the root ends and shutdown begins by their steps. */
  lemma {:induction false} RunCounts(s: State, steps: seq<Step>)
    requires IsRun(s, steps)
    ensures var t := After(s, steps);
      && t.cfg == s.cfg + Times(steps, SetConfig) && Enabled(t, SetConfig)
      && t.asked == s.asked + Times(steps, RestartBegin)
      && (t.rootLive <==> s.rootLive && RootCancel !in steps) && (t.rootLive ==> Enabled(t, RootCancel))
      && (t.shutdown.NotStarted? <==> s.shutdown.NotStarted? && ShutdownBegin !in steps)
    decreases |steps|
  {
    if steps != [] {
      assert steps == [steps[0]] + steps[1..];
      StepCounts(s, steps[0]);
      StepEnds(s, steps[0]);
      hide Apply;
      RunCounts(Apply(s, steps[0]), steps[1..]);
    }
  }

  lemma StepCounts(s: State, step: Step)
    requires Enabled(s, step)
    ensures var t := Apply(s, step);
      && t.cfg == s.cfg + (if step.SetConfig? then 1 else 0)
      && t.asked == s.asked + (if step.RestartBegin? then 1 else 0)
  {
    hide RemoveFirst;
  }

  lemma StepEnds(s: State, step: Step)
    requires Enabled(s, step)
    ensures var t := Apply(s, step);
      && (t.rootLive <==> s.rootLive && !step.RootCancel?)
      && (t.shutdown.NotStarted? <==> s.shutdown.NotStarted? && !step.ShutdownBegin?)
  {
    hide RemoveFirst;
  }

  /** How far a continuation is from its critical section, once the generation it
      waits for has returned. */
  function StepsToFinish(s: State, k: nat): nat
    requires k < |s.world.conts|
  {
    match s.world.conts[k].phase
    case Awaiting => if s.world.IsFull(s.world.conts[k].oldDone) then 2 else 3
    case Holding => 1
    case _ => 0
  }

  predicate GenerationReturned(s: State, k: nat) {
    && k < |s.world.conts| && s.world.conts[k].oldDone.Done?
    && var g := s.world.conts[k].oldDone.g;
    g < |s.world.gens| && !s.world.gens[g].phase.Running?
  }

  /** From the exit of its generation on, a pending continuation is never stuck:
      while the mutex is free it or the exiting generation can take a step, and
      after at most three such steps the next one is its start attempt. */
  lemma PendingProgress(s: State, k: nat, build: Build) returns (step: Step)
    requires Inv(s) && Pending(s, k) && s.lock.Free? && GenerationReturned(s, k)
    ensures Enabled(s, step)
    ensures if StepsToFinish(s, k) == 0 then step == ContFinish(k, build)
            else step in {GenDeliver(s.world.conts[k].oldDone.g), ContTake(k), ContPublish(k)}
    ensures StepsToFinish(s, k) > 0 ==>
      var t := Apply(s, step);
      Pending(t, k) && t.lock.Free? && GenerationReturned(t, k) && StepsToFinish(t, k) < StepsToFinish(s, k)
  {
    assert s.world.ContOk(k);
    var g := s.world.conts[k].oldDone.g;
    assert s.world.GenOk(g);
    match s.world.conts[k].phase
    case Awaiting => step := if s.world.IsFull(Done(g)) then ContTake(k) else GenDeliver(g);
    case Holding => step := ContPublish(k);
    case Published => step := ContFinish(k, build);
  }

  ghost predicate NotSetBack(s: State, t: State, k: nat) {
    && GenerationReturned(s, k) && GenerationReturned(t, k)
    && StepsToFinish(t, k) <= StepsToFinish(s, k)
  }

  /** A channel handed to a continuation is nobody else's to read. */
  lemma Untaken(s: State, k: nat, c: Chan)
    requires Inv(s) && k < |s.world.conts|
    requires s.lock == Restarting(Some(c)) || c in Unread(s)
    ensures c != s.world.conts[k].oldDone
  {
    assert s.world.ContOk(k);
    assert c in Unread(s) && s.world.Open(c);
  }

  lemma ReceiveKeeps(s: State, k: nat, c: Chan)
    requires GenerationReturned(s, k) && c != s.world.conts[k].oldDone
    ensures NotSetBack(s, s.(world := s.world.Receive(c)), k)
  {
  }

  lemma StartKeeps(s: State, k: nat, build: Build)
    requires GenerationReturned(s, k)
    ensures NotSetBack(s, Start(s, build), k)
  {
  }

  lemma RestartKeeps(s: State, k: nat, step: Step)
    requires Inv(s) && GenerationReturned(s, k) && Enabled(s, step)
    requires step.RestartBegin? || step.RestartFinish? || step.RestartTimeout?
    ensures NotSetBack(s, Apply(s, step), k)
  {
    hide Inv, TracksOpen, Start;
    if step.RestartFinish? {
      var last := s.lock.oldDone;
      if last.Some? {
        Untaken(s, k, last.value);
        ReceiveKeeps(s, k, last.value);
      }
      StartKeeps(ForgetOld(s, last).(lock := Free), k, step.build);
    }
  }

  lemma GoroutineKeeps(s: State, k: nat, step: Step)
    requires Inv(s) && GenerationReturned(s, k) && Enabled(s, step)
    requires step.GenReturn? || step.GenDeliver? || step.ContTake? || step.ContPublish?
    ensures NotSetBack(s, Apply(s, step), k)
  {
    hide TracksOpen, Cancels, Current, DefersOne;
    assert s.world.ContOk(k) && s.world.GenOk(s.world.conts[k].oldDone.g);
    if step.ContTake? { assert s.world.ContOk(step.k); }
  }

  lemma FinishKeeps(s: State, k: nat, step: Step)
    requires Inv(s) && GenerationReturned(s, k) && Enabled(s, step) && step.ContFinish?
    ensures NotSetBack(s, Apply(s, step), k)
  {
    hide TracksOpen, Cancels, Current, DefersOne, Start;
    assert s.world.ContOk(k);
    var t := Reclaim(s, step.k);
    assert NotSetBack(s, t, k);
    StartKeeps(t, k, step.build);
  }

  /** No step of anybody sets a continuation back. */
  lemma ProgressKept(s: State, k: nat, step: Step)
    requires Inv(s) && GenerationReturned(s, k) && Enabled(s, step)
    ensures NotSetBack(s, Apply(s, step), k)
  {
    hide TracksOpen, Cancels, Current, DefersOne;
    match step
    case RestartBegin | RestartFinish(_) | RestartTimeout => RestartKeeps(s, k, step);
    case ContFinish(_, _) => FinishKeeps(s, k, step);
    case GenReturn(_) | GenDeliver(_) | ContTake(_) | ContPublish(_) => GoroutineKeeps(s, k, step);
    case ShutdownReceive =>
      Untaken(s, k, s.shutdown.left[0]);
      ReceiveKeeps(s, k, s.shutdown.left[0]);
    case SetConfig | RootCancel | ShutdownBegin =>
  }

  lemma RequestedStep(s: State, step: Step)
    requires Inv(s) && Enabled(s, step)
    ensures s.requested <= Apply(s, step).requested
  {
    hide TracksOpen, DefersOne, Cancels;
  }

  /** A settings version never goes back. */
  lemma {:induction false} RequestedGrows(s: State, steps: seq<Step>)
    requires Inv(s) && IsRun(s, steps)
    ensures s.requested <= After(s, steps).requested
    decreases |steps|
  {
    if steps != [] {
      hide Inv, Apply;
      StepInv(s, steps[0]);
      RequestedStep(s, steps[0]);
      RequestedGrows(Apply(s, steps[0]), steps[1..]);
    }
  }

  /** From a restart request on, whatever happens, no generation built from
      older settings runs uncancelled. */
  lemma RestartRetiresOldSettings(build: Build, before: seq<Step>, after: seq<Step>)
    requires IsRun(Boot(build), before)
    requires var s := After(Boot(build), before); Enabled(s, RestartBegin) && IsRun(Apply(s, RestartBegin), after)
    ensures var s := After(Boot(build), before);
      var t := After(Apply(s, RestartBegin), after);
      forall g :: 0 <= g < |t.world.gens| && t.world.gens[g].settings < s.cfg ==> t.world.gens[g].cancelled
  {
    BootRunInv(build, before);
    var s := After(Boot(build), before);
    StepInv(s, RestartBegin);
    RunInv(Apply(s, RestartBegin), after);
    RequestedGrows(Apply(s, RestartBegin), after);
  }

  // ----- Shutdown -----

  /** A goroutine that will still send on the channel. */
  predicate SenderPending(w: World, c: Chan) {
    match c
    case Done(g) => g < |w.gens| && !w.gens[g].phase.Delivered?
    case Forward(k) => k < |w.conts| && (w.conts[k].phase.Awaiting? || w.conts[k].phase.Holding?)
  }

  /** Each channel the shutdown loop has yet to read is unread and either holds
      a value or has a live sender. */
  lemma SnapshotStaysReadable(build: Build, steps: seq<Step>, c: Chan)
    requires IsRun(Boot(build), steps)
    requires var s := After(Boot(build), steps); s.shutdown.Draining? && c in s.shutdown.left
    ensures var w := After(Boot(build), steps).world;
      w.Exists(c) && w.SlotOf(c).received == 0 && (w.IsFull(c) <==> !SenderPending(w, c))
  {
    BootRunInv(build, steps);
    var s := After(Boot(build), steps);
    assert c in Unread(s);
    assert s.world.Open(c);
    match c
    case Done(g) => assert s.world.GenOk(g);
    case Forward(k) => assert s.world.ContOk(k);
  }

  /** The steps that bring shutdown forward; none needs the mutex. */
  predicate Drains(step: Step) {
    step.GenReturn? || step.GenDeliver? || step.ContTake? || step.ContPublish? || step.ShutdownReceive?
  }

  predicate AllReturned(w: World) {
    forall g :: 0 <= g < |w.gens| ==> !w.gens[g].phase.Running?
  }

  ghost predicate DrainedOut(s: State) {
    forall step :: Drains(step) ==> !Enabled(s, step)
  }

  /** Once every processor has returned, the shutdown loop is never stuck: some
      step that needs no mutex is possible until it has read its last channel. */
  lemma DrainProgress(s: State) returns (step: Step)
    requires Inv(s) && s.shutdown.Draining? && s.shutdown.left != []
    requires AllReturned(s.world)
    ensures Drains(step) && Enabled(s, step)
  {
    var c := s.shutdown.left[0];
    assert c in Unread(s);
    assert s.world.Open(c);
    if s.world.IsFull(c) {
      step := ShutdownReceive;
    } else {
      if c.Forward? { assert s.world.ContOk(c.k); }
      var g := if c.Done? then c.g else s.world.conts[c.k].oldDone.g;
      assert s.world.GenOk(g);
      if s.world.gens[g].phase.Returned? {
        step := GenDeliver(g);
      } else if s.world.conts[c.k].phase.Awaiting? {
        step := ContTake(c.k);
      } else {
        step := ContPublish(c.k);
      }
    }
  }

  function GenWork(gens: seq<Gen>): nat {
    if gens == [] then 0
    else GenWork(gens[1..]) + (match gens[0].phase case Running => 2 case Returned => 1 case Delivered => 0)
  }

  function ContWork(conts: seq<Cont>): nat {
    if conts == [] then 0
    else ContWork(conts[1..]) +
         (match conts[0].phase case Awaiting => 3 case Holding => 2 case Published => 1 case Finished => 0)
  }

  /** How many goroutine and shutdown steps are left at most. */
  function Work(s: State): nat {
    GenWork(s.world.gens) + ContWork(s.world.conts) + (if s.shutdown.Draining? then |s.shutdown.left| else 0)
  }

  lemma {:induction false} GenWorkUpdate(gens: seq<Gen>, g: nat, gen: Gen)
    requires g < |gens|
    ensures GenWork(gens[g := gen]) == GenWork(gens) - GenWork([gens[g]]) + GenWork([gen])
  {
    if g == 0 {
      assert gens[0 := gen][1..] == gens[1..];
    } else {
      GenWorkUpdate(gens[1..], g - 1, gen);
      assert gens[g := gen][1..] == gens[1..][g - 1 := gen];
    }
  }

  lemma {:induction false} ContWorkUpdate(conts: seq<Cont>, k: nat, cont: Cont)
    requires k < |conts|
    ensures ContWork(conts[k := cont]) == ContWork(conts) - ContWork([conts[k]]) + ContWork([cont])
  {
    if k == 0 {
      assert conts[0 := cont][1..] == conts[1..];
    } else {
      ContWorkUpdate(conts[1..], k - 1, cont);
      assert conts[k := cont][1..] == conts[1..][k - 1 := cont];
    }
  }

  lemma SlotKeepsWork(w: World, c: Chan, slot: Slot)
    requires w.Exists(c)
    ensures GenWork(w.SetSlot(c, slot).gens) == GenWork(w.gens)
    ensures ContWork(w.SetSlot(c, slot).conts) == ContWork(w.conts)
  {
    match c
    case Done(g) => GenWorkUpdate(w.gens, g, w.gens[g].(slot := slot));
    case Forward(k) => ContWorkUpdate(w.conts, k, w.conts[k].(slot := slot));
  }

  lemma ReceiveKeepsWork(w: World, c: Chan)
    ensures GenWork(w.Receive(c).gens) == GenWork(w.gens)
    ensures ContWork(w.Receive(c).conts) == ContWork(w.conts)
  {
    if w.Exists(c) { SlotKeepsWork(w, c, w.SlotOf(c).(received := w.SlotOf(c).received + 1)); }
  }

  lemma DeliverKeepsWork(w: World, c: Chan)
    ensures GenWork(w.Deliver(c).gens) == GenWork(w.gens)
    ensures ContWork(w.Deliver(c).conts) == ContWork(w.conts)
  {
    if w.Exists(c) { SlotKeepsWork(w, c, w.SlotOf(c).(sent := w.SlotOf(c).sent + 1)); }
  }

  lemma GenDrains(s: State, step: Step)
    requires CanStep(s, step) && (step.GenReturn? || step.GenDeliver?)
    ensures Work(Apply(s, step)) < Work(s)
  {
    var phase := if step.GenReturn? then Returned else Delivered;
    GenWorkUpdate(s.world.gens, step.g, s.world.gens[step.g].(phase := phase));
    DeliverKeepsWork(s.world.GenAt(step.g, phase), Done(step.g));
  }

  lemma ContDrains(s: State, step: Step)
    requires CanStep(s, step) && (step.ContTake? || step.ContPublish?)
    ensures Work(Apply(s, step)) < Work(s)
  {
    var phase := if step.ContTake? then Holding else Published;
    ContWorkUpdate(s.world.conts, step.k, s.world.conts[step.k].(phase := phase));
    ReceiveKeepsWork(s.world.ContAt(step.k, phase), s.world.conts[step.k].oldDone);
    DeliverKeepsWork(s.world.ContAt(step.k, phase), Forward(step.k));
  }

  /** After shutdown began, each draining step uses up work and no other step
      creates any. */
  lemma DrainsWork(s: State, step: Step)
    requires Inv(s) && s.shutdown.Draining? && Enabled(s, step)
    ensures Apply(s, step).shutdown.Draining?
    ensures Work(Apply(s, step)) <= Work(s)
    ensures Drains(step) ==> Work(Apply(s, step)) < Work(s)
  {
    match step
    case GenReturn(_) | GenDeliver(_) => GenDrains(s, step);
    case ContTake(_) | ContPublish(_) => ContDrains(s, step);
    case ContFinish(k, _) => ContWorkUpdate(s.world.conts, k, s.world.conts[k].(phase := Finished));
    case ShutdownReceive => ReceiveKeepsWork(s.world, s.shutdown.left[0]);
    case _ =>
  }

  function CountDrains(steps: seq<Step>): nat {
    if steps == [] then 0 else (if Drains(steps[0]) then 1 else 0) + CountDrains(steps[1..])
  }

  /** Every run after shutdown began has boundedly many draining steps, however
      many restarts interleave.  When one that ends with all processors returned
      offers no draining step any more, the shutdown loop is finished. */
  lemma {:induction false} ShutdownFinishes(s: State, steps: seq<Step>)
    requires Inv(s) && s.shutdown.Draining? && IsRun(s, steps)
    ensures CountDrains(steps) + Work(After(s, steps)) <= Work(s)
    ensures var t := After(s, steps);
      t.shutdown.Draining? && (AllReturned(t.world) && DrainedOut(t) ==> t.shutdown.left == [])
    decreases |steps|
  {
    if steps == [] {
      if s.shutdown.left != [] && AllReturned(s.world) {
        var step := DrainProgress(s);
      }
    } else {
      StepInv(s, steps[0]);
      DrainsWork(s, steps[0]);
      ShutdownFinishes(Apply(s, steps[0]), steps[1..]);
    }
  }
}
