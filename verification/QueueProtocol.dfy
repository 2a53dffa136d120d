/**
  The queue-processor restart protocol of the server's background services.

  Processor generations are cancelled, awaited with a deadline while the queue
  mutex is held, and replaced at once or by a deferred continuation; shutdown
  runs beside all of it.  A `State` holds the tracked fields together with the
  goroutines and channels they refer to; a `Step` is one atomic action of one
  goroutine.
 */
module QueueProtocol {
  import opened Basics

  // ----- Goroutines and their channels -----

  /** A channel is named after the goroutine it was made for, its only sender. */
  datatype Chan = Done(g: nat) | Forward(k: nat)

  /** A one-slot channel buffer: `sent` and `received` count the operations of
      the whole run, so the slot is full while they differ. */
  datatype Slot = Slot(sent: nat, received: nat) {
    predicate Full() { sent > received }
  }

  /** `Running` until the processor's Run returns, `Returned` until its result
      is in the done channel.  `reader` is the continuation the done channel was
      handed to, if any. */
  datatype GenPhase = Running | Returned | Delivered
  datatype Gen = Gen(phase: GenPhase, cancelled: bool, settings: nat, slot: Slot, reader: Option<nat>)

  datatype ContPhase = Awaiting | Holding | Published | Finished
  datatype Cont = Cont(oldDone: Chan, phase: ContPhase, slot: Slot)

  datatype World = World(gens: seq<Gen>, conts: seq<Cont>) {

    predicate Exists(c: Chan) {
      match c
      case Done(g) => g < |gens|
      case Forward(k) => k < |conts|
    }

    function SlotOf(c: Chan): Slot
      requires Exists(c)
    {
      match c
      case Done(g) => gens[g].slot
      case Forward(k) => conts[k].slot
    }

    predicate IsFull(c: Chan) { Exists(c) && SlotOf(c).Full() }
    predicate HasRoom(c: Chan) { Exists(c) && !SlotOf(c).Full() }

    function SetSlot(c: Chan, slot: Slot): World
      requires Exists(c)
    {
      match c
      case Done(g) => this.(gens := gens[g := gens[g].(slot := slot)])
      case Forward(k) => this.(conts := conts[k := conts[k].(slot := slot)])
    }

    function Receive(c: Chan): World {
      if !Exists(c) then this else SetSlot(c, SlotOf(c).(received := SlotOf(c).received + 1))
    }

    function Deliver(c: Chan): World {
      if !Exists(c) then this else SetSlot(c, SlotOf(c).(sent := SlotOf(c).sent + 1))
    }

    function Cancel(g: Option<nat>): World {
      if g.Some? && g.value < |gens|
      then this.(gens := gens[g.value := gens[g.value].(cancelled := true)])
      else this
    }

    function GenAt(g: nat, phase: GenPhase): World
      requires g < |gens|
    {
      this.(gens := gens[g := gens[g].(phase := phase)])
    }

    function ContAt(k: nat, phase: ContPhase): World
      requires k < |conts|
    {
      this.(conts := conts[k := conts[k].(phase := phase)])
    }

    /** Starts a continuation that becomes the only reader of `oldDone`. */
    function Spawn(oldDone: Chan): World {
      var handed := if oldDone.Done? && oldDone.g < |gens|
                    then gens[oldDone.g := gens[oldDone.g].(reader := Some(|conts|))]
                    else gens;
      World(handed, conts + [Cont(oldDone, Awaiting, Slot(0, 0))])
    }

    // ----- Invariant of the goroutines -----

    /** Nobody has read the channel and no continuation reads it. */
    predicate Open(c: Chan) {
      && Exists(c)
      && SlotOf(c).received == 0
      && (c.Done? ==> gens[c.g].reader.None?)
    }

    predicate GenOk(g: nat)
      requires g < |gens|
    {
      var gen := gens[g];
      && gen.slot.sent == (if gen.phase.Delivered? then 1 else 0)
      && gen.slot.received <= gen.slot.sent
      && (gen.reader.Some? ==>
            && gen.reader.value < |conts|
            && conts[gen.reader.value].oldDone == Done(g)
            && gen.slot.received == (if conts[gen.reader.value].phase.Awaiting? then 0 else 1))
    }

    predicate ContOk(k: nat)
      requires k < |conts|
    {
      var cont := conts[k];
      && cont.slot.sent == (if cont.phase.Published? || cont.phase.Finished? then 1 else 0)
      && cont.slot.received <= cont.slot.sent
      && cont.oldDone.Done? && cont.oldDone.g < |gens|
      && gens[cont.oldDone.g].reader == Some(k)
    }

    /** Each channel is sent to at most once, when its sender is done, and read
        at most once; a handed-over channel is read by its continuation alone. */
    predicate Ok() {
      && (forall g :: 0 <= g < |gens| ==> GenOk(g))
      && (forall k :: 0 <= k < |conts| ==> ContOk(k))
    }

    /** Only the newest generation's exit may still be outstanding. */
    predicate Serial() {
      forall g :: 0 <= g < |gens| - 1 ==> gens[g].phase.Delivered? && gens[g].slot.received == 1
    }
  }

  // ----- Effects of single actions on the goroutines -----

  lemma ReceiveOpen(w: World, c: Chan)
    requires w.Ok() && w.Open(c) && w.IsFull(c)
    ensures w.Receive(c).Ok()
    ensures forall d :: w.Receive(c).Open(d) <==> w.Open(d) && d != c
  {
    var v := w.Receive(c);
    forall g | 0 <= g < |v.gens| ensures v.GenOk(g) { assert w.GenOk(g); }
    forall k | 0 <= k < |v.conts| ensures v.ContOk(k) { assert w.ContOk(k); }
  }

  lemma FinishOk(w: World, k: nat)
    requires w.Ok() && k < |w.conts| && w.conts[k].phase.Published?
    ensures w.ContAt(k, Finished).Ok()
    ensures forall d :: w.ContAt(k, Finished).Open(d) <==> w.Open(d)
  {
    var v := w.ContAt(k, Finished);
    forall g | 0 <= g < |v.gens| ensures v.GenOk(g) { assert w.GenOk(g); }
    forall j | 0 <= j < |v.conts| ensures v.ContOk(j) { assert w.ContOk(j); }
  }

  lemma TakeOk(w: World, k: nat)
    requires w.Ok() && k < |w.conts| && w.conts[k].phase.Awaiting? && w.IsFull(w.conts[k].oldDone)
    ensures w.ContAt(k, Holding).Receive(w.conts[k].oldDone).Ok()
    ensures forall d :: w.ContAt(k, Holding).Receive(w.conts[k].oldDone).Open(d) <==> w.Open(d)
    ensures w.Serial() ==> w.ContAt(k, Holding).Receive(w.conts[k].oldDone).Serial()
  {
    assert w.ContOk(k);
    assert w.GenOk(w.conts[k].oldDone.g);
    var v := w.ContAt(k, Holding).Receive(w.conts[k].oldDone);
    forall g | 0 <= g < |v.gens| ensures v.GenOk(g) { assert w.GenOk(g); }
    forall j | 0 <= j < |v.conts| ensures v.ContOk(j) { assert w.ContOk(j); }
  }

  lemma PublishOk(w: World, k: nat)
    requires w.Ok() && k < |w.conts| && w.conts[k].phase.Holding?
    ensures w.ContAt(k, Published).Deliver(Forward(k)).Ok()
    ensures forall d :: w.ContAt(k, Published).Deliver(Forward(k)).Open(d) <==> w.Open(d)
  {
    assert w.ContOk(k);
    var v := w.ContAt(k, Published).Deliver(Forward(k));
    forall g | 0 <= g < |v.gens| ensures v.GenOk(g) { assert w.GenOk(g); }
    forall j | 0 <= j < |v.conts| ensures v.ContOk(j) { assert w.ContOk(j); }
  }

  lemma ReturnOk(w: World, g: nat)
    requires w.Ok() && g < |w.gens| && w.gens[g].phase.Running?
    ensures w.GenAt(g, Returned).Ok()
    ensures forall d :: w.GenAt(g, Returned).Open(d) <==> w.Open(d)
  {
    var v := w.GenAt(g, Returned);
    forall h | 0 <= h < |v.gens| ensures v.GenOk(h) { assert w.GenOk(h); }
    forall j | 0 <= j < |v.conts| ensures v.ContOk(j) { assert w.ContOk(j); }
  }

  lemma DeliverOk(w: World, g: nat)
    requires w.Ok() && g < |w.gens| && w.gens[g].phase.Returned?
    ensures w.GenAt(g, Delivered).Deliver(Done(g)).Ok()
    ensures forall d :: w.GenAt(g, Delivered).Deliver(Done(g)).Open(d) <==> w.Open(d)
  {
    assert w.GenOk(g);
    var v := w.GenAt(g, Delivered).Deliver(Done(g));
    forall h | 0 <= h < |v.gens| ensures v.GenOk(h) { assert w.GenOk(h); }
    forall j | 0 <= j < |v.conts| ensures v.ContOk(j) { assert w.ContOk(j); }
  }

  lemma CancelOk(w: World, g: Option<nat>)
    requires w.Ok()
    ensures w.Cancel(g).Ok()
    ensures forall d :: w.Cancel(g).Open(d) <==> w.Open(d)
  {
    var v := w.Cancel(g);
    forall h | 0 <= h < |v.gens| ensures v.GenOk(h) { assert w.GenOk(h); }
    forall j | 0 <= j < |v.conts| ensures v.ContOk(j) { assert w.ContOk(j); }
  }

  lemma SpawnOk(w: World, g: nat)
    requires w.Ok() && w.Open(Done(g))
    ensures w.Spawn(Done(g)).Ok()
    ensures forall d :: w.Spawn(Done(g)).Open(d) <==> (w.Open(d) && d != Done(g)) || d == Forward(|w.conts|)
  {
    var v := w.Spawn(Done(g));
    forall h | 0 <= h < |v.gens| ensures v.GenOk(h) { assert w.GenOk(h); }
    forall j | 0 <= j < |v.conts| ensures v.ContOk(j) { assert j < |w.conts| ==> w.ContOk(j); }
  }

  /** With nothing left to read, every generation's exit has been received. */
  lemma AllReceived(w: World)
    requires w.Ok()
    requires forall c :: !w.Open(c)
    ensures forall g :: 0 <= g < |w.gens| ==> w.gens[g].phase.Delivered? && w.gens[g].slot.received == 1
  {
    forall g | 0 <= g < |w.gens| ensures w.gens[g].phase.Delivered? && w.gens[g].slot.received == 1 {
      assert w.GenOk(g);
      assert !w.Open(Done(g));
      if w.gens[g].reader.Some? {
        assert w.ContOk(w.gens[g].reader.value);
        assert !w.Open(Forward(w.gens[g].reader.value));
      }
    }
  }

  // ----- State -----

  /** The queue mutex as far as it is held across a blocking wait. */
  datatype Lock = Free | Restarting(oldDone: Option<Chan>)

  datatype Shutdown = NotStarted | Draining(left: seq<Chan>)

  /** What building a processor from the current settings yields. */
  datatype Build = Workers | NoWorkers | BuildError

  datatype State = State(
    world: World,
    queueDone: Option<Chan>,
    queueDones: seq<Chan>,
    queueDeferred: Option<Chan>,
    queueCancel: Option<nat>,     // the generation whose context it cancels
    lock: Lock,
    rootLive: bool,
    shutdown: Shutdown,
    cfg: nat,                     // settings version in the config
    requested: nat,               // settings version the latest restart found
    attempted: nat,               // settings version of the latest start attempt
    asked: nat,                   // restart requests so far
    answered: nat)                // how many of them a start attempt has followed

  // ----- What the source's functions do to the state -----

  /** Cancels the tracked generation and stops tracking its channel. */
  function Stop(s: State): State {
    s.(world := s.world.Cancel(s.queueCancel), queueCancel := None, queueDone := None)
  }

  function RemoveFirst(xs: seq<Chan>, x: Chan): seq<Chan> {
    if xs == [] then []
    else if xs[0] == x then xs[1..]
    else [xs[0]] + RemoveFirst(xs[1..], x)
  }

  function Remove(s: State, done: Option<Chan>): State {
    match done
    case None => s
    case Some(c) => s.(queueDones := RemoveFirst(s.queueDones, c))
  }

  /** Builds and starts a generation unless the root context has ended. */
  function Start(s: State, build: Build): State {
    if !s.rootLive then s
    else
      var t := s.(attempted := s.cfg, answered := s.asked);
      match build
      case BuildError => t
      case NoWorkers => t.(queueDone := None)
      case Workers =>
        var g := |s.world.gens|;
        t.(world := s.world.(gens := s.world.gens + [Gen(Running, false, s.cfg, Slot(0, 0), None)]),
           queueCancel := Some(g),
           queueDone := Some(Done(g)),
           queueDones := s.queueDones + [Done(g)])
  }

  /** Keeps tracking a generation that missed the restart deadline, through the
      continuation that already waits for it or through a new one. */
  function Defer(s: State, oldDone: Chan): State {
    if s.queueDeferred == Some(oldDone) then s.(queueDone := Some(oldDone))
    else
      var forward := Forward(|s.world.conts|);
      s.(world := s.world.Spawn(oldDone),
         queueDones := RemoveFirst(s.queueDones, oldDone) + [forward],
         queueDone := Some(forward),
         queueDeferred := Some(forward))
  }

  /** What the restart call does between its wait and the start: the old exit is
      received, or there was no generation to wait for. */
  function ForgetOld(s: State, oldDone: Option<Chan>): State {
    var t := if oldDone.Some? then s.(world := s.world.Receive(oldDone.value)) else s;
    var u := Remove(t, oldDone);
    if oldDone.Some? && u.queueDeferred == oldDone then u.(queueDeferred := None) else u
  }

  /** A deferred continuation takes back the exit it published, if nobody else
      has taken over. */
  function Reclaim(s: State, k: nat): State
    requires k < |s.world.conts|
  {
    var t := s.(world := s.world.ContAt(k, Finished));
    var u := if t.queueDeferred == Some(Forward(k)) then t.(queueDeferred := None) else t;
    if u.queueDone != Some(Forward(k)) then u
    else Remove(u.(world := u.world.Receive(Forward(k))), Some(Forward(k))).(queueDone := None)
  }

  // ----- Steps -----

  datatype Step =
    | SetConfig
    | RestartBegin
    | RestartFinish(build: Build)
    | RestartTimeout
    | GenReturn(g: nat)
    | GenDeliver(g: nat)
    | ContTake(k: nat)
    | ContPublish(k: nat)
    | ContFinish(k: nat, build: Build)
    | RootCancel
    | ShutdownBegin
    | ShutdownReceive

  predicate GenIn(s: State, g: nat, phase: GenPhase) {
    g < |s.world.gens| && s.world.gens[g].phase == phase
  }

  predicate ContIn(s: State, k: nat, phase: ContPhase) {
    k < |s.world.conts| && s.world.conts[k].phase == phase
  }

  /** When a goroutine can take the step: locks are free, received-from channels
      are full and sent-to channels are empty. */
  predicate CanStep(s: State, step: Step) {
    match step
    case SetConfig => true
    case RestartBegin => s.lock.Free?
    case RestartFinish(_) => s.lock.Restarting? && (s.lock.oldDone.None? || s.world.IsFull(s.lock.oldDone.value))
    case RestartTimeout => s.lock.Restarting? && s.lock.oldDone.Some?
    case GenReturn(g) => GenIn(s, g, Running)
    case GenDeliver(g) => GenIn(s, g, Returned) && s.world.HasRoom(Done(g))
    case ContTake(k) => ContIn(s, k, Awaiting) && s.world.IsFull(s.world.conts[k].oldDone)
    case ContPublish(k) => ContIn(s, k, Holding) && s.world.HasRoom(Forward(k))
    case ContFinish(k, _) =>
      ContIn(s, k, Published) && s.lock.Free? && (s.queueDone == Some(Forward(k)) ==> s.world.IsFull(Forward(k)))
    case RootCancel => s.rootLive
    case ShutdownBegin => s.lock.Free? && s.shutdown.NotStarted?
    case ShutdownReceive => s.shutdown.Draining? && s.shutdown.left != [] && s.world.IsFull(s.shutdown.left[0])
  }

  /** The server's shutdown sequence ends the root context before it waits for
      the background services. */
  predicate Enabled(s: State, step: Step) {
    CanStep(s, step) && (step.ShutdownBegin? ==> !s.rootLive)
  }

  function Apply(s: State, step: Step): State
    requires CanStep(s, step)
  {
    match step
    case SetConfig => s.(cfg := s.cfg + 1)
    case RestartBegin => Stop(s).(lock := Restarting(s.queueDone), requested := s.cfg, asked := s.asked + 1)
    case RestartFinish(build) => Start(ForgetOld(s, s.lock.oldDone).(lock := Free), build)
    case RestartTimeout => Defer(s, s.lock.oldDone.value).(lock := Free)
    case GenReturn(g) => s.(world := s.world.GenAt(g, Returned))
    case GenDeliver(g) => s.(world := s.world.GenAt(g, Delivered).Deliver(Done(g)))
    case ContTake(k) => s.(world := s.world.ContAt(k, Holding).Receive(s.world.conts[k].oldDone))
    case ContPublish(k) => s.(world := s.world.ContAt(k, Published).Deliver(Forward(k)))
    case ContFinish(k, build) =>
      if s.queueDone == Some(Forward(k)) then Start(Reclaim(s, k), build) else Reclaim(s, k)
    case RootCancel => s.(rootLive := false)
    case ShutdownBegin => Stop(s).(shutdown := Draining(s.queueDones))
    case ShutdownReceive =>
      s.(world := s.world.Receive(s.shutdown.left[0]), shutdown := Draining(s.shutdown.left[1..]))
  }

  /** The state in which the server has tried to start its first generation. */
  function Boot(build: Build): State {
    Start(State(World([], []), None, [], None, None, Free, true, NotStarted, 0, 0, 0, 0, 0), build)
  }

  // ----- The inductive invariant -----

  /** The channel a restart waits on, or the tracked one. */
  function Tracked(s: State): Option<Chan> {
    if s.lock.Restarting? then s.lock.oldDone else s.queueDone
  }

  /** The channels still to be read by a restart, a continuation's critical
      section or the shutdown loop. */
  function Unread(s: State): seq<Chan> {
    match s.shutdown
    case NotStarted => OptionSeq(Tracked(s))
    case Draining(left) => left
  }

  /** The tracked fields name exactly the open channel, of which there is at
      most one. */
  ghost predicate TracksOpen(s: State) {
    && |Unread(s)| <= 1
    && (forall c :: s.world.Open(c) <==> c in Unread(s))
    && (s.lock.Restarting? ==> s.queueDone.None? && s.queueCancel.None?)
    && (s.shutdown.NotStarted? ==> s.queueDones == OptionSeq(Tracked(s)))
    && (s.shutdown.Draining? ==> Tracked(s).None? && s.queueCancel.None? && !s.rootLive)
  }

  /** `queueDeferred` is set exactly while the tracked channel is a pending
      continuation's. */
  predicate DefersOne(s: State) {
    s.shutdown.NotStarted? ==>
      && (s.queueDeferred.Some? ==> Tracked(s) == s.queueDeferred && s.queueDeferred.value.Forward?)
      && (Tracked(s).Some? && Tracked(s).value.Forward? ==>
            && s.queueDeferred == Tracked(s)
            && s.world.Exists(Tracked(s).value)
            && !s.world.conts[Tracked(s).value.k].phase.Finished?)
  }

  /** Every generation but the directly tracked one has been cancelled. */
  predicate Cancels(s: State) {
    && (forall g :: 0 <= g < |s.world.gens| ==> s.world.gens[g].cancelled || s.queueCancel == Some(g))
    && (s.queueCancel.Some? ==>
          && s.queueCancel.value < |s.world.gens|
          && !s.world.gens[s.queueCancel.value].cancelled
          && s.queueDone == Some(Done(s.queueCancel.value)))
    && (s.lock.Free? && s.queueDone.Some? && s.queueDone.value.Done? ==>
          s.queueCancel == Some(s.queueDone.value.g))
  }

  predicate Current(s: State) {
    && s.requested <= s.cfg && s.attempted <= s.cfg && s.answered <= s.asked
    && (s.lock.Restarting? || (s.queueDone.Some? && s.queueDone.value.Forward?) ==> s.answered < s.asked)
    && (s.queueCancel.Some? ==> s.queueCancel.value < |s.world.gens| &&
                                s.world.gens[s.queueCancel.value].settings == s.attempted >= s.requested)
    && (s.lock.Free? && s.rootLive ==>
          || (s.requested <= s.attempted && s.asked == s.answered)
          || (s.queueDone.Some? && s.queueDone.value.Forward?))
  }

  ghost predicate Inv(s: State) {
    s.world.Ok() && s.world.Serial() && TracksOpen(s) && DefersOne(s) && Cancels(s) && Current(s)
  }

  // ----- Preservation -----

  lemma BootInv(build: Build)
    ensures Inv(Boot(build))
  {
  }

  /** Starting a generation when nothing is tracked keeps the invariant. */
  lemma StartInv(s: State, build: Build)
    requires s.world.Ok() && TracksOpen(s) && DefersOne(s) && Cancels(s) && s.world.Serial()
    requires s.lock.Free? && s.queueDone.None? && s.attempted <= s.cfg && s.requested <= s.cfg && s.answered <= s.asked
    ensures Inv(Start(s, build))
  {
    if s.rootLive {
      assert Unread(s) == [];
      AllReceived(s.world);
      var t := Start(s, build);
      forall g | 0 <= g < |t.world.gens| ensures t.world.GenOk(g) {
        assert g < |s.world.gens| ==> s.world.GenOk(g);
      }
      forall k | 0 <= k < |t.world.conts| ensures t.world.ContOk(k) { assert s.world.ContOk(k); }
      if build.Workers? {
        forall c ensures t.world.Open(c) <==> c in Unread(t) {
          assert !s.world.Open(c);
        }
      }
    }
  }

  lemma RestartBeginInv(s: State)
    requires Inv(s) && Enabled(s, RestartBegin)
    ensures Inv(Apply(s, RestartBegin))
  {
    CancelOk(s.world, s.queueCancel);
  }

  lemma RestartFinishInv(s: State, build: Build)
    requires Inv(s) && Enabled(s, RestartFinish(build))
    ensures Inv(Apply(s, RestartFinish(build)))
  {
    if s.lock.oldDone.Some? {
      assert s.lock.oldDone.value in Unread(s);
      ReceiveOpen(s.world, s.lock.oldDone.value);
    }
    StartInv(ForgetOld(s, s.lock.oldDone).(lock := Free), build);
  }

  lemma RestartTimeoutInv(s: State)
    requires Inv(s) && Enabled(s, RestartTimeout)
    ensures Inv(Apply(s, RestartTimeout))
  {
    assert s.lock.oldDone.value in Unread(s);
    if s.queueDeferred != s.lock.oldDone {
      SpawnOk(s.world, s.lock.oldDone.value.g);
    }
  }

  lemma GenInv(s: State, step: Step)
    requires Inv(s) && Enabled(s, step) && (step.GenReturn? || step.GenDeliver?)
    ensures Inv(Apply(s, step))
  {
    match step
    case GenReturn(g) => ReturnOk(s.world, g);
    case GenDeliver(g) => DeliverOk(s.world, g);
  }

  lemma ContInv(s: State, step: Step)
    requires Inv(s) && Enabled(s, step) && (step.ContTake? || step.ContPublish?)
    ensures Inv(Apply(s, step))
  {
    match step
    case ContTake(k) =>
      assert s.world.ContOk(k);
      TakeOk(s.world, k);
    case ContPublish(k) => PublishOk(s.world, k);
  }

  lemma ContFinishInv(s: State, k: nat, build: Build)
    requires Inv(s) && Enabled(s, ContFinish(k, build))
    ensures Inv(Apply(s, ContFinish(k, build)))
  {
    FinishOk(s.world, k);
    if s.queueDone == Some(Forward(k)) {
      assert Forward(k) in Unread(s);
      ReceiveOpen(s.world.ContAt(k, Finished), Forward(k));
      StartInv(Reclaim(s, k), build);
    }
  }

  lemma ShutdownInv(s: State, step: Step)
    requires Inv(s) && Enabled(s, step) && (step.ShutdownBegin? || step.ShutdownReceive?)
    ensures Inv(Apply(s, step))
  {
    if step.ShutdownBegin? {
      CancelOk(s.world, s.queueCancel);
    } else {
      assert s.shutdown.left[0] in Unread(s);
      ReceiveOpen(s.world, s.shutdown.left[0]);
    }
  }

  lemma StepInv(s: State, step: Step)
    requires Inv(s) && Enabled(s, step)
    ensures Inv(Apply(s, step))
  {
    match step
    case SetConfig | RootCancel =>
    case RestartBegin => RestartBeginInv(s);
    case RestartFinish(build) => RestartFinishInv(s, build);
    case RestartTimeout => RestartTimeoutInv(s);
    case ContFinish(k, build) => ContFinishInv(s, k, build);
    case ShutdownBegin | ShutdownReceive => ShutdownInv(s, step);
    case GenReturn(_) | GenDeliver(_) => GenInv(s, step);
    case ContTake(_) | ContPublish(_) => ContInv(s, step);
  }
}
