/**
  One latest-version lookup phase: the atomic counters that registry requests
  of any number of goroutines update, and the consecutive-failure breaker.
 */
module RegistryPhase {
  import opened Basics

  const BREAKER_THRESHOLD := 20

  // ----- One request -----

  datatype Body = Broken(phaseDone: bool) | Whole(size: nat)
  datatype Reply = Failed(phaseDone: bool) | Response(status: int, body: Body)
  datatype Wait = Granted | Cancelled | Expired

  /** What the outside world does during one request. */
  datatype Exchange = Exchange(wait: Wait, validUrl: bool, reply: Reply)

  /** How a request ends, as the phase accounts for it. */
  datatype Fate = Skipped | Silent | Unsent | Refused | Missing | Oversized | Answered

  function FateOf(breakerOpen: bool, e: Exchange, limit: nat): Fate {
    if breakerOpen then Skipped
    else if e.wait.Cancelled? then Silent
    else if e.wait.Expired? then Unsent
    else if !e.validUrl then Silent
    else match e.reply
      case Failed(phaseDone) => if phaseDone then Silent else Refused
      case Response(status, body) =>
        if status == 404 then Missing
        else if status != 200 then Refused
        else match body
          case Broken(phaseDone) => if phaseDone then Silent else Refused
          case Whole(size) => if size > limit then Oversized else Answered
  }

  /** The request reaches the registry. */
  predicate Sent(e: Exchange) { e.wait.Granted? && e.validUrl }

  /** The registry fails the request: no response, a status other than 200 and 404,
      or a body that breaks off, none of them because the phase is over. */
  predicate Fails(e: Exchange) {
    && Sent(e)
    && (match e.reply
        case Failed(phaseDone) => !phaseDone
        case Response(status, body) =>
          status !in {200, 404} || (status == 200 && body.Broken? && !body.phaseDone))
  }

  /** The registry answers: it has no such package, or sends a whole body. */
  predicate Responds(e: Exchange) {
    Sent(e) && e.reply.Response? && (e.reply.status == 404 || (e.reply.status == 200 && e.reply.body.Whole?))
  }

  predicate Delivers(e: Exchange, limit: nat) {
    Responds(e) && e.reply.status == 200 && e.reply.body.size <= limit
  }

  /** How a request ends, told from the exchange: an open breaker sends nothing; a
      failing registry refuses; a response is a missing package, an oversized body or
      an answer; what the registry has no part in is silent, or unsent when the
      throttle cannot admit it in time. */
  lemma FateMeaning(breakerOpen: bool, e: Exchange, limit: nat)
    ensures var fate := FateOf(breakerOpen, e, limit);
      && (fate.Skipped? <==> breakerOpen)
      && (fate.Unsent? <==> !breakerOpen && e.wait.Expired?)
      && (fate.Refused? <==> !breakerOpen && Fails(e))
      && (fate.Missing? <==> !breakerOpen && Responds(e) && e.reply.status == 404)
      && (fate.Answered? <==> !breakerOpen && Delivers(e, limit))
      && (fate.Oversized? <==> !breakerOpen && Responds(e) && e.reply.status == 200 && e.reply.body.size > limit)
      && (fate.Silent? <==> !breakerOpen && !e.wait.Expired? && !Fails(e) && !Responds(e))
  {
  }

  datatype Counters = Counters(refused: nat, oversized: nat, skipped: nat, consecutive: nat, tripped: bool)

  /** What one request leaves behind when nothing interferes. */
  function Recorded(c: Counters, fate: Fate): Counters {
    match fate
    case Skipped => c.(skipped := c.skipped + 1)
    case Silent => c
    case Unsent => c.(refused := c.refused + 1)
    case Refused =>
      c.(refused := c.refused + 1, consecutive := c.consecutive + 1,
         tripped := c.tripped || c.consecutive + 1 >= BREAKER_THRESHOLD)
    case Oversized => c.(refused := c.refused + 1, oversized := c.oversized + 1, consecutive := 0)
    case _ => c.(consecutive := 0)
  }

  class LookupPhase {
    var refused: nat
    var oversized: nat
    var skipped: nat
    var consecutive: nat
    var breakerTripped: bool

    function View(): Counters
      reads this
    {
      Counters(refused, oversized, skipped, consecutive, breakerTripped)
    }

    constructor ()
      ensures View() == Counters(0, 0, 0, 0, false)
    {
      refused, oversized, skipped, consecutive, breakerTripped := 0, 0, 0, 0, false;
    }

    method RecordRefusal()
      modifies this
      ensures View() == Recorded(old(View()), Refused)
    {
      refused := refused + 1;
      consecutive := consecutive + 1;
      if consecutive >= BREAKER_THRESHOLD {
        breakerTripped := true;
      }
    }

    method RecordOversized()
      modifies this
      ensures View() == old(View()).(refused := old(refused) + 1, oversized := old(oversized) + 1)
    {
      refused := refused + 1;
      oversized := oversized + 1;
    }

    method WaitForThrottle(wait: Wait) returns (ok: bool)
      modifies this
      ensures ok <==> wait.Granted?
      ensures View() == if wait.Expired? then Recorded(old(View()), Unsent) else old(View())
    {
      if wait.Granted? {
        return true;
      }
      if !wait.Cancelled? {
        refused := refused + 1;
      }
      return false;
    }

    /** One registry request; returns the size of the data it got, if any. */
    method Get(e: Exchange, limit: nat) returns (data: Option<nat>)
      modifies this
      ensures View() == Recorded(old(View()), FateOf(old(breakerTripped), e, limit))
      ensures data.Some? <==> !old(breakerTripped) && Delivers(e, limit)
      ensures data.Some? ==> e.reply.body == Whole(data.value)
      ensures !old(breakerTripped) ==>
        consecutive == if Responds(e) then 0 else if Fails(e) then old(consecutive) + 1 else old(consecutive)
    {
      if breakerTripped {
        skipped := skipped + 1;
        return None;
      }
      var sent := WaitForThrottle(e.wait);
      if !sent || !e.validUrl {
        return None;
      }
      if e.reply.Failed? {
        if !e.reply.phaseDone {
          RecordRefusal();
        }
        return None;
      }
      if e.reply.status != 200 {
        if e.reply.status == 404 {
          consecutive := 0;
        } else {
          RecordRefusal();
        }
        return None;
      }
      if e.reply.body.Broken? {
        if !e.reply.body.phaseDone {
          RecordRefusal();
        }
        return None;
      }
      consecutive := 0;
      if e.reply.body.size > limit {
        RecordOversized();
        return None;
      }
      return Some(e.reply.body.size);
    }
  }

  /** A request whose context may carry no phase: then nothing is recorded, the
      breaker is never open, and the answer is the same. */
  method GetWithin(phase: LookupPhase?, e: Exchange, limit: nat) returns (data: Option<nat>)
    modifies phase
    ensures var fate := FateOf(phase != null && old(phase.breakerTripped), e, limit);
      phase != null ==> phase.View() == Recorded(old(phase.View()), fate)
    ensures data.Some? <==> !(phase != null && old(phase.breakerTripped)) && Delivers(e, limit)
    ensures data.Some? ==> e.reply.body == Whole(data.value)
  {
    if phase != null {
      data := phase.Get(e, limit);
    } else if !e.wait.Granted? || !e.validUrl || e.reply.Failed? || e.reply.status != 200 || e.reply.body.Broken? {
      data := None;
    } else {
      data := if e.reply.body.size > limit then None else Some(e.reply.body.size);
    }
  }

  // ----- Interleaved requests: one atomic operation at a time -----

  datatype Atomic = AddRefused | AddConsecutive | StoreTripped | AddOversized | ResetConsecutive | AddSkipped

  /** The atomic operations a request performs, in order. */
  function Script(fate: Fate): seq<Atomic> {
    match fate
    case Skipped => [AddSkipped]
    case Silent => []
    case Unsent => [AddRefused]
    case Refused => [AddRefused, AddConsecutive]
    case Oversized => [ResetConsecutive, AddRefused, AddOversized]
    case _ => [ResetConsecutive]
  }

  function Perform(c: Counters, op: Atomic): Counters {
    match op
    case AddRefused => c.(refused := c.refused + 1)
    case AddConsecutive => c.(consecutive := c.consecutive + 1)
    case StoreTripped => c.(tripped := true)
    case AddOversized => c.(oversized := c.oversized + 1)
    case ResetConsecutive => c.(consecutive := 0)
    case AddSkipped => c.(skipped := c.skipped + 1)
  }

  /** The failure that reaches the threshold still has to store the flag. */
  function Remaining(c: Counters, todo: seq<Atomic>): seq<Atomic>
    requires todo != []
  {
    if todo[0].AddConsecutive? && c.consecutive + 1 >= BREAKER_THRESHOLD
    then [StoreTripped] + todo[1..]
    else todo[1..]
  }

  /** `fates` and `ops` record what has begun and what has been performed. */
  datatype State = State(c: Counters, todo: seq<seq<Atomic>>, fates: seq<Fate>, ops: seq<Atomic>)

  datatype Step = Begin(i: nat, e: Exchange, limit: nat) | Advance(i: nat)

  predicate Enabled(s: State, step: Step) {
    step.i < |s.todo| && (step.Begin? <==> s.todo[step.i] == [])
  }

  function Apply(s: State, step: Step): State
    requires Enabled(s, step)
  {
    match step
    case Begin(i, e, limit) =>
      var fate := FateOf(s.c.tripped, e, limit);
      s.(todo := s.todo[i := Script(fate)], fates := s.fates + [fate])
    case Advance(i) =>
      var op := s.todo[i][0];
      s.(c := Perform(s.c, op), todo := s.todo[i := Remaining(s.c, s.todo[i])], ops := s.ops + [op])
  }

  predicate Idle(s: State) {
    forall i :: 0 <= i < |s.todo| ==> s.todo[i] == []
  }

  /** Nobody else between the steps: a request has its sequential effect. */
  lemma RunsAlone(c: Counters, fate: Fate)
    ensures PerformAll(c, Script(fate)) == Recorded(c, fate)
  {
    var script := Script(fate);
    if fate.Refused? {
      var c1 := Perform(c, AddRefused);
      assert Remaining(c, script) == [AddConsecutive];
      var c2 := Perform(c1, AddConsecutive);
      if c1.consecutive + 1 >= BREAKER_THRESHOLD {
        assert Remaining(c1, [AddConsecutive]) == [StoreTripped];
        assert PerformAll(c2, [StoreTripped]) == PerformAll(Perform(c2, StoreTripped), []);
      } else {
        assert Remaining(c1, [AddConsecutive]) == [];
      }
    } else if fate.Oversized? {
      var c1 := Perform(c, ResetConsecutive);
      assert Remaining(c, script) == [AddRefused, AddOversized];
      assert Remaining(c1, [AddRefused, AddOversized]) == [AddOversized];
      assert PerformAll(Perform(c1, AddRefused), [AddOversized]) == Perform(Perform(c1, AddRefused), AddOversized);
    }
  }

  function Weight(todo: seq<Atomic>): nat {
    if todo == [] then 0 else (if todo[0].AddConsecutive? then 2 else 1) + Weight(todo[1..])
  }

  function PerformAll(c: Counters, todo: seq<Atomic>): Counters
    decreases Weight(todo)
  {
    if todo == [] then c else
      assert Weight(Remaining(c, todo)) < Weight(todo);
      PerformAll(Perform(c, todo[0]), Remaining(c, todo))
  }

  // ----- Totals over the requests under way -----

  /** What a thread's remaining operations are counted for. */
  datatype Tally = Pending(op: Atomic) | OwesOversized

  function Count(op: Atomic, ops: seq<Atomic>): nat {
    if ops == [] then 0 else (if ops[0] == op then 1 else 0) + Count(op, ops[1..])
  }

  function Measure(tally: Tally, todo: seq<Atomic>): nat {
    match tally
    case Pending(op) => Count(op, todo)
    case OwesOversized => if |todo| == 1 && todo[0].AddOversized? then 1 else 0
  }

  function Total(todo: seq<seq<Atomic>>, tally: Tally): nat {
    if todo == [] then 0 else Measure(tally, todo[0]) + Total(todo[1..], tally)
  }

  function Expected(fates: seq<Fate>, op: Atomic): nat {
    if fates == [] then 0
    else Expected(fates[..|fates| - 1], op) + Count(op, Script(fates[|fates| - 1]))
  }

  lemma {:induction false} TotalUpdate(todo: seq<seq<Atomic>>, i: nat, next: seq<Atomic>, tally: Tally)
    requires i < |todo|
    ensures Total(todo[i := next], tally) == Total(todo, tally) - Measure(tally, todo[i]) + Measure(tally, next)
  {
    if i == 0 {
      assert todo[i := next][1..] == todo[1..];
    } else {
      TotalUpdate(todo[1..], i - 1, next, tally);
      assert todo[i := next][1..] == todo[1..][i - 1 := next];
    }
  }

  lemma {:induction false} TotalIdle(todo: seq<seq<Atomic>>, tally: Tally)
    requires forall i :: 0 <= i < |todo| ==> todo[i] == []
    ensures Total(todo, tally) == 0
  {
    if todo != [] {
      TotalIdle(todo[1..], tally);
    }
  }

  lemma {:induction false} CountSnoc(op: Atomic, ops: seq<Atomic>, last: Atomic)
    ensures Count(op, ops + [last]) == Count(op, ops) + if last == op then 1 else 0
  {
    if ops != [] {
      CountSnoc(op, ops[1..], last);
      assert (ops + [last])[1..] == ops[1..] + [last];
    }
  }

  // ----- Accounting -----

  /** What a request may still have to do. */
  predicate WellFormed(todo: seq<Atomic>) {
    && |todo| <= 3
    && (|todo| == 3 ==> todo[0].ResetConsecutive? && todo[1].AddRefused? && todo[2].AddOversized?)
    && (|todo| == 2 ==> todo[0].AddRefused? && (todo[1].AddConsecutive? || todo[1].AddOversized?))
  }

  predicate Formed(s: State) {
    forall i :: 0 <= i < |s.todo| ==> WellFormed(s.todo[i])
  }

  /** Done plus pending is what the requests begun so far amount to. */
  predicate Balanced(done: nat, todo: seq<seq<Atomic>>, fates: seq<Fate>, op: Atomic) {
    done + Total(todo, Pending(op)) == Expected(fates, op)
  }

  predicate Covered(c: Counters, todo: seq<seq<Atomic>>) {
    c.oversized + Total(todo, OwesOversized) <= c.refused
  }

  ghost predicate Accounted(s: State) {
    && Formed(s)
    && Balanced(s.c.refused, s.todo, s.fates, AddRefused)
    && Balanced(s.c.oversized, s.todo, s.fates, AddOversized)
    && Balanced(s.c.skipped, s.todo, s.fates, AddSkipped)
    && Covered(s.c, s.todo)
  }

  lemma ExpectedGrows(fates: seq<Fate>, fate: Fate, op: Atomic)
    ensures Expected(fates + [fate], op) == Expected(fates, op) + Count(op, Script(fate))
  {
    assert (fates + [fate])[..|fates|] == fates;
  }

  /** What performing the first operation changes in each tally. */
  lemma AdvanceMeasures(c: Counters, todo: seq<Atomic>)
    requires todo != [] && WellFormed(todo)
    ensures WellFormed(Remaining(c, todo))
    ensures forall op: Atomic :: op != StoreTripped ==>
              Count(op, Remaining(c, todo)) == Count(op, todo) - (if todo[0] == op then 1 else 0)
    ensures Measure(OwesOversized, Remaining(c, todo)) <=
            Measure(OwesOversized, todo) + (if todo[0].AddRefused? then 1 else 0) - (if todo[0].AddOversized? then 1 else 0)
  {
    var rest := todo[1..];
    assert todo[0].AddConsecutive? ==> [StoreTripped] + rest == [StoreTripped] && Count(AddConsecutive, rest) == 0;
  }

  lemma BeginBalanced(done: nat, todo: seq<seq<Atomic>>, fates: seq<Fate>, i: nat, fate: Fate, op: Atomic)
    requires i < |todo| && todo[i] == [] && Balanced(done, todo, fates, op)
    ensures Balanced(done, todo[i := Script(fate)], fates + [fate], op)
  {
    TotalUpdate(todo, i, Script(fate), Pending(op));
    ExpectedGrows(fates, fate, op);
  }

  lemma AdvanceBalanced(done: nat, todo: seq<seq<Atomic>>, fates: seq<Fate>, i: nat, c: Counters, op: Atomic)
    requires i < |todo| && todo[i] != [] && WellFormed(todo[i]) && Balanced(done, todo, fates, op) && op != StoreTripped
    ensures Balanced(done + if todo[i][0] == op then 1 else 0, todo[i := Remaining(c, todo[i])], fates, op)
  {
    TotalUpdate(todo, i, Remaining(c, todo[i]), Pending(op));
    AdvanceMeasures(c, todo[i]);
  }

  lemma CoveredStep(s: State, step: Step)
    requires Formed(s) && Covered(s.c, s.todo) && Enabled(s, step)
    ensures Formed(Apply(s, step)) && Covered(Apply(s, step).c, Apply(s, step).todo)
  {
    TotalUpdate(s.todo, step.i, Apply(s, step).todo[step.i], OwesOversized);
    if step.Advance? {
      AdvanceMeasures(s.c, s.todo[step.i]);
    }
  }

  lemma AccountedStep(s: State, step: Step)
    requires Accounted(s) && Enabled(s, step)
    ensures Accounted(Apply(s, step))
  {
    CoveredStep(s, step);
    match step
    case Begin(i, e, limit) =>
      var fate := FateOf(s.c.tripped, e, limit);
      BeginBalanced(s.c.refused, s.todo, s.fates, i, fate, AddRefused);
      BeginBalanced(s.c.oversized, s.todo, s.fates, i, fate, AddOversized);
      BeginBalanced(s.c.skipped, s.todo, s.fates, i, fate, AddSkipped);
    case Advance(i) =>
      AdvanceBalanced(s.c.refused, s.todo, s.fates, i, s.c, AddRefused);
      AdvanceBalanced(s.c.oversized, s.todo, s.fates, i, s.c, AddOversized);
      AdvanceBalanced(s.c.skipped, s.todo, s.fates, i, s.c, AddSkipped);
  }

  // ----- The breaker -----

  /** Failures since the last success, over the operations performed so far. */
  function Streak(ops: seq<Atomic>): nat {
    if ops == [] then 0
    else
      var before := Streak(ops[..|ops| - 1]);
      match ops[|ops| - 1]
      case AddConsecutive => before + 1
      case ResetConsecutive => 0
      case _ => before
  }

  /** The streak reached the threshold at some point. */
  predicate Reached(ops: seq<Atomic>) {
    ops != [] && (Streak(ops) >= BREAKER_THRESHOLD || Reached(ops[..|ops| - 1]))
  }

  /** A thread that is about to store the flag. */
  predicate Storing(todo: seq<Atomic>) { todo != [] && todo[0].StoreTripped? }

  ghost predicate BreakerOk(s: State) {
    && s.c.consecutive == Streak(s.ops)
    && (s.c.tripped ==> Reached(s.ops))
    && (forall i :: 0 <= i < |s.todo| && Storing(s.todo[i]) ==> Reached(s.ops))
    && (Reached(s.ops) ==> s.c.tripped || exists i :: 0 <= i < |s.todo| && Storing(s.todo[i]))
  }

  lemma StreakSnoc(ops: seq<Atomic>, op: Atomic)
    ensures Streak(ops + [op]) ==
              if op.AddConsecutive? then Streak(ops) + 1 else if op.ResetConsecutive? then 0 else Streak(ops)
    ensures Reached(ops + [op]) <==> Reached(ops) || Streak(ops + [op]) >= BREAKER_THRESHOLD
    ensures Streak(ops) >= BREAKER_THRESHOLD ==> Reached(ops)
  {
    assert (ops + [op])[..|ops|] == ops;
  }

  lemma StoringAfter(c: Counters, todo: seq<Atomic>)
    requires todo != [] && WellFormed(todo)
    ensures Storing(Remaining(c, todo)) <==> todo[0].AddConsecutive? && c.consecutive + 1 >= BREAKER_THRESHOLD
  {
  }

  lemma BreakerStep(s: State, step: Step)
    requires BreakerOk(s) && Enabled(s, step) && Formed(s)
    ensures BreakerOk(Apply(s, step))
  {
    hide Streak, Reached, Storing, Remaining;
    var t, i := Apply(s, step), step.i;
    assert forall j :: 0 <= j < |s.todo| && j != i ==> t.todo[j] == s.todo[j];
    if step.Advance? {
      StreakSnoc(s.ops, s.todo[i][0]);
      StoringAfter(s.c, s.todo[i]);
      StoringIs(s.todo[i]);
    } else {
      NeverStores(t.todo[i], FateOf(s.c.tripped, step.e, step.limit));
      StoringIs(s.todo[i]);
    }
    if Reached(t.ops) && !t.c.tripped {
      if Reached(s.ops) {
        var k :| 0 <= k < |s.todo| && Storing(s.todo[k]);
        assert Storing(t.todo[k]);
      } else {
        assert Storing(t.todo[i]);
      }
    }
  }

  lemma StoringIs(todo: seq<Atomic>)
    ensures Storing(todo) <==> todo != [] && todo[0].StoreTripped?
  {
  }

  lemma NeverStores(todo: seq<Atomic>, fate: Fate)
    requires todo == Script(fate)
    ensures !Storing(todo)
  {
  }

  // ----- Whole runs -----

  function Start(threads: nat): State {
    State(Counters(0, 0, 0, 0, false), seq(threads, _ => []), [], [])
  }

  ghost predicate IsRun(s: State, steps: seq<Step>)
    decreases |steps|
  {
    steps == [] || (Enabled(s, steps[0]) && IsRun(Apply(s, steps[0]), steps[1..]))
  }

  ghost function After(s: State, steps: seq<Step>): State
    requires IsRun(s, steps)
    decreases |steps|
  {
    if steps == [] then s else After(Apply(s, steps[0]), steps[1..])
  }

  lemma StepOk(s: State, step: Step)
    requires Accounted(s) && BreakerOk(s) && Enabled(s, step)
    ensures var t := Apply(s, step);
      Accounted(t) && BreakerOk(t) && t.c.refused >= s.c.refused && (s.c.tripped ==> t.c.tripped)
  {
    AccountedStep(s, step);
    BreakerStep(s, step);
  }

  /** Every run keeps the books and never closes the breaker again. */
  lemma {:induction false} RunOk(s: State, steps: seq<Step>)
    requires Accounted(s) && BreakerOk(s) && IsRun(s, steps)
    ensures var t := After(s, steps);
      && Accounted(t) && BreakerOk(t)
      && t.c.refused >= s.c.refused && (s.c.tripped ==> t.c.tripped)
    decreases |steps|
  {
    if steps != [] {
      StepOk(s, steps[0]);
      RunOk(Apply(s, steps[0]), steps[1..]);
    }
  }

  /** Requests begun once the breaker is open are all skipped. */
  lemma {:induction false} OpenBreakerSkips(s: State, steps: seq<Step>)
    requires s.c.tripped && IsRun(s, steps)
    ensures var t := After(s, steps);
      && t.c.tripped && s.fates <= t.fates
      && forall k :: |s.fates| <= k < |t.fates| ==> t.fates[k].Skipped?
    decreases |steps|
  {
    if steps != [] {
      OpenBreakerSkips(Apply(s, steps[0]), steps[1..]);
    }
  }

  lemma StartOk(threads: nat)
    ensures Accounted(Start(threads)) && BreakerOk(Start(threads))
  {
    TotalIdle(Start(threads).todo, Pending(AddRefused));
    TotalIdle(Start(threads).todo, Pending(AddOversized));
    TotalIdle(Start(threads).todo, Pending(AddSkipped));
    TotalIdle(Start(threads).todo, OwesOversized);
  }

  /** The report loads the oversized counter first and the refused counter at
      some later moment: the difference it prints is never negative. */
  lemma ReportNeverNegative(threads: nat, earlier: seq<Step>, later: seq<Step>)
    requires IsRun(Start(threads), earlier) && IsRun(After(Start(threads), earlier), later)
    ensures After(After(Start(threads), earlier), later).c.refused >= After(Start(threads), earlier).c.oversized
  {
    StartOk(threads);
    RunOk(Start(threads), earlier);
    RunOk(After(Start(threads), earlier), later);
  }

  function Tallied(fates: seq<Fate>, fate: Fate): nat {
    if fates == [] then 0
    else Tallied(fates[..|fates| - 1], fate) + if fates[|fates| - 1] == fate then 1 else 0
  }

  lemma ScriptCounts(fate: Fate)
    ensures Count(AddRefused, Script(fate)) == if fate.Refused? || fate.Unsent? || fate.Oversized? then 1 else 0
    ensures Count(AddOversized, Script(fate)) == if fate.Oversized? then 1 else 0
    ensures Count(AddSkipped, Script(fate)) == if fate.Skipped? then 1 else 0
  {
    forall op: Atomic
      ensures Count(op, [AddRefused] + [AddConsecutive]) ==
              (if op.AddRefused? then 1 else 0) + (if op.AddConsecutive? then 1 else 0)
      ensures Count(op, [ResetConsecutive] + [AddRefused] + [AddOversized]) ==
              (if op.ResetConsecutive? then 1 else 0) + (if op.AddRefused? then 1 else 0) + (if op.AddOversized? then 1 else 0)
    {
      CountSnoc(op, [AddRefused], AddConsecutive);
      CountSnoc(op, [ResetConsecutive], AddRefused);
      CountSnoc(op, [ResetConsecutive] + [AddRefused], AddOversized);
    }
    assert Script(Refused) == [AddRefused] + [AddConsecutive];
    assert Script(Oversized) == [ResetConsecutive] + [AddRefused] + [AddOversized];
  }

  lemma {:induction false} ExpectedTallies(fates: seq<Fate>)
    ensures Expected(fates, AddRefused) == Tallied(fates, Refused) + Tallied(fates, Unsent) + Tallied(fates, Oversized)
    ensures Expected(fates, AddOversized) == Tallied(fates, Oversized)
    ensures Expected(fates, AddSkipped) == Tallied(fates, Skipped)
    ensures |fates| == Tallied(fates, Refused) + Tallied(fates, Unsent) + Tallied(fates, Oversized) +
                       Tallied(fates, Skipped) + Tallied(fates, Silent) + Tallied(fates, Missing) + Tallied(fates, Answered)
  {
    if fates != [] {
      ExpectedTallies(fates[..|fates| - 1]);
      ScriptCounts(fates[|fates| - 1]);
    }
  }

  /** Once all requests have returned, every one of them is counted exactly once:
      the report's three numbers and the requests that failed no one add up. */
  lemma EveryRequestCountedOnce(threads: nat, steps: seq<Step>)
    requires IsRun(Start(threads), steps) && Idle(After(Start(threads), steps))
    ensures var s := After(Start(threads), steps);
      && s.c.oversized == Tallied(s.fates, Oversized)
      && s.c.refused - s.c.oversized == Tallied(s.fates, Refused) + Tallied(s.fates, Unsent)
      && s.c.skipped == Tallied(s.fates, Skipped)
      && s.c.refused + s.c.skipped + Tallied(s.fates, Silent) + Tallied(s.fates, Missing) + Tallied(s.fates, Answered)
         == |s.fates|
  {
    StartOk(threads);
    RunOk(Start(threads), steps);
    var s := After(Start(threads), steps);
    TotalIdle(s.todo, Pending(AddRefused));
    TotalIdle(s.todo, Pending(AddOversized));
    TotalIdle(s.todo, Pending(AddSkipped));
    ExpectedTallies(s.fates);
  }

  /** A stretch of operations without a success that contains enough failures. */
  ghost predicate Outage(ops: seq<Atomic>, i: nat, j: nat) {
    i <= j <= |ops| && ResetConsecutive !in ops[i..j] && Count(AddConsecutive, ops[i..j]) >= BREAKER_THRESHOLD
  }

  /** The streak is the number of failures in the longest success-free ending. */
  lemma {:induction false} StreakCounts(ops: seq<Atomic>) returns (i: nat)
    ensures i <= |ops| && ResetConsecutive !in ops[i..] && Count(AddConsecutive, ops[i..]) == Streak(ops)
    ensures i > 0 ==> ops[i - 1] == ResetConsecutive
  {
    if ops == [] {
      i := 0;
    } else {
      var front, last := ops[..|ops| - 1], ops[|ops| - 1];
      if last.ResetConsecutive? {
        i := |ops|;
      } else {
        i := StreakCounts(front);
        assert ops[i..] == front[i..] + [last];
        CountSnoc(AddConsecutive, front[i..], last);
      }
    }
  }

  lemma {:induction false} StreakAtLeast(ops: seq<Atomic>, i: nat)
    requires i <= |ops| && ResetConsecutive !in ops[i..]
    ensures Streak(ops) >= Count(AddConsecutive, ops[i..])
  {
    if i < |ops| {
      var front, last := ops[..|ops| - 1], ops[|ops| - 1];
      assert ops[i..] == front[i..] + [last];
      CountSnoc(AddConsecutive, front[i..], last);
      StreakAtLeast(front, i);
    }
  }

  lemma {:induction false} ReachedPrefix(ops: seq<Atomic>, j: nat)
    requires j <= |ops| && Reached(ops[..j])
    ensures Reached(ops)
    decreases |ops|
  {
    if j < |ops| {
      assert ops[..|ops| - 1][..j] == ops[..j];
      ReachedPrefix(ops[..|ops| - 1], j);
    } else {
      assert ops[..j] == ops;
    }
  }

  lemma {:induction false} ReachedMeansOutage(ops: seq<Atomic>)
    ensures Reached(ops) <==> exists i: nat, j: nat :: Outage(ops, i, j)
  {
    if Reached(ops) {
      var n := |ops|;
      if Streak(ops) >= BREAKER_THRESHOLD {
        var i := StreakCounts(ops);
        assert ops[i..n] == ops[i..];
        assert Outage(ops, i, n);
      } else {
        ReachedMeansOutage(ops[..n - 1]);
        var i: nat, j: nat :| Outage(ops[..n - 1], i, j);
        assert ops[..n - 1][i..j] == ops[i..j];
        assert Outage(ops, i, j);
      }
    }
    forall i: nat, j: nat | Outage(ops, i, j) ensures Reached(ops) {
      assert ops[..j][i..] == ops[i..j];
      StreakAtLeast(ops[..j], i);
      ReachedPrefix(ops, j);
    }
  }

  /** An open breaker means there was an outage: twenty failures with no success
      between them.  Once no request is under way the converse holds too. */
  lemma BreakerMeansOutage(threads: nat, steps: seq<Step>)
    requires IsRun(Start(threads), steps)
    ensures var s := After(Start(threads), steps);
      && (s.c.tripped ==> exists i: nat, j: nat :: Outage(s.ops, i, j))
      && (Idle(s) ==> (s.c.tripped <==> exists i: nat, j: nat :: Outage(s.ops, i, j)))
  {
    StartOk(threads);
    RunOk(Start(threads), steps);
    ReachedMeansOutage(After(Start(threads), steps).ops);
  }

  // ----- From the exchanges to the breaker -----

  /** Requests begun in a run whose exchange the registry fails. */
  function Failing(steps: seq<Step>): nat {
    if steps == [] then 0
    else (if steps[0].Begin? && Fails(steps[0].e) then 1 else 0) + Failing(steps[1..])
  }

  /** Requests begun in a run whose exchange brings a response. */
  function Responding(steps: seq<Step>): nat {
    if steps == [] then 0
    else (if steps[0].Begin? && Responds(steps[0].e) then 1 else 0) + Responding(steps[1..])
  }

  lemma BreakerCounts(fate: Fate)
    ensures Count(AddConsecutive, Script(fate)) == if fate.Refused? then 1 else 0
    ensures Count(ResetConsecutive, Script(fate)) == if fate.Missing? || fate.Oversized? || fate.Answered? then 1 else 0
  {
    if fate.Refused? {
      assert Script(fate) == [AddRefused] + [AddConsecutive];
      CountSnoc(AddConsecutive, [AddRefused], AddConsecutive);
      CountSnoc(ResetConsecutive, [AddRefused], AddConsecutive);
    } else if fate.Oversized? {
      assert Script(fate) == [ResetConsecutive] + [AddRefused] + [AddOversized];
      CountSnoc(AddConsecutive, [ResetConsecutive] + [AddRefused], AddOversized);
      CountSnoc(AddConsecutive, [ResetConsecutive], AddRefused);
      CountSnoc(ResetConsecutive, [ResetConsecutive] + [AddRefused], AddOversized);
      CountSnoc(ResetConsecutive, [ResetConsecutive], AddRefused);
    }
  }

  lemma {:induction false} CountConcat(op: Atomic, a: seq<Atomic>, b: seq<Atomic>)
    ensures Count(op, a + b) == Count(op, a) + Count(op, b)
  {
    if a == [] {
      assert a + b == b;
    } else {
      assert (a + b)[1..] == a[1..] + b;
      CountConcat(op, a[1..], b);
    }
  }

  lemma {:induction false} CountsNone(op: Atomic, ops: seq<Atomic>)
    ensures Count(op, ops) == 0 <==> op !in ops
  {
    if ops != [] {
      CountsNone(op, ops[1..]);
      assert ops == [ops[0]] + ops[1..];
    }
  }

  /** Operations performed and operations still pending are those of the requests
      begun, at every moment of a run. */
  lemma {:induction false} OpsBalanced(s: State, steps: seq<Step>, op: Atomic)
    requires IsRun(s, steps) && Formed(s) && op != StoreTripped && Balanced(Count(op, s.ops), s.todo, s.fates, op)
    ensures var t := After(s, steps); Balanced(Count(op, t.ops), t.todo, t.fates, op) && s.ops <= t.ops
    decreases |steps|
  {
    hide Balanced, Count, Script, WellFormed;
    if steps != [] {
      var t := Apply(s, steps[0]);
      FormedStep(s, steps[0]);
      match steps[0] {
        case Begin(i, e, limit) =>
          BeginBalanced(Count(op, s.ops), s.todo, s.fates, i, FateOf(s.c.tripped, e, limit), op);
        case Advance(i) =>
          AdvanceBalanced(Count(op, s.ops), s.todo, s.fates, i, s.c, op);
          CountSnoc(op, s.ops, s.todo[i][0]);
      }
      OpsBalanced(t, steps[1..], op);
    }
  }

  lemma FormedStep(s: State, step: Step)
    requires Formed(s) && Enabled(s, step)
    ensures Formed(Apply(s, step))
  {
    if step.Advance? {
      AdvanceMeasures(s.c, s.todo[step.i]);
    }
  }

  /** What the requests of a run add to the failures and to the responses; exactly
      what their exchanges say as long as the breaker stays closed. */
  lemma {:induction false} BegunCounts(s: State, steps: seq<Step>)
    requires IsRun(s, steps)
    ensures var t := After(s, steps);
      && Expected(t.fates, AddConsecutive) <= Expected(s.fates, AddConsecutive) + Failing(steps)
      && Expected(t.fates, ResetConsecutive) <= Expected(s.fates, ResetConsecutive) + Responding(steps)
      && (!t.c.tripped ==> Expected(t.fates, AddConsecutive) == Expected(s.fates, AddConsecutive) + Failing(steps))
      && (!t.c.tripped ==> !s.c.tripped)
    decreases |steps|
  {
    hide Expected, FateOf, Script, Count, Fails, Responds;
    if steps != [] {
      BegunCounts(Apply(s, steps[0]), steps[1..]);
      match steps[0] {
        case Begin(i, e, limit) =>
          var fate := FateOf(s.c.tripped, e, limit);
          FateMeaning(s.c.tripped, e, limit);
          BreakerCounts(fate);
          ExpectedGrows(s.fates, fate, AddConsecutive);
          ExpectedGrows(s.fates, fate, ResetConsecutive);
        case Advance(_) =>
      }
    }
  }

  lemma {:induction false} StreakBounded(ops: seq<Atomic>)
    ensures Streak(ops) <= Count(AddConsecutive, ops)
    ensures Reached(ops) ==> Count(AddConsecutive, ops) >= BREAKER_THRESHOLD
  {
    if ops != [] {
      var front, last := ops[..|ops| - 1], ops[|ops| - 1];
      StreakBounded(front);
      CountSnoc(AddConsecutive, front, last);
      assert ops == front + [last];
    }
  }

  lemma FromStart(threads: nat, steps: seq<Step>)
    requires IsRun(Start(threads), steps)
    ensures var s := After(Start(threads), steps);
      && Accounted(s) && BreakerOk(s)
      && Balanced(Count(AddConsecutive, s.ops), s.todo, s.fates, AddConsecutive)
      && Balanced(Count(ResetConsecutive, s.ops), s.todo, s.fates, ResetConsecutive)
  {
    StartOk(threads);
    RunOk(Start(threads), steps);
    TotalIdle(Start(threads).todo, Pending(AddConsecutive));
    TotalIdle(Start(threads).todo, Pending(ResetConsecutive));
    OpsBalanced(Start(threads), steps, AddConsecutive);
    OpsBalanced(Start(threads), steps, ResetConsecutive);
  }

  /** The breaker never opens before the registry has failed twenty requests:
      missing packages, answers and requests that were never sent do not open it. */
  lemma FewFailuresKeepClosed(threads: nat, steps: seq<Step>)
    requires IsRun(Start(threads), steps) && Failing(steps) < BREAKER_THRESHOLD
    ensures !After(Start(threads), steps).c.tripped
  {
    FromStart(threads, steps);
    BegunCounts(Start(threads), steps);
    StreakBounded(After(Start(threads), steps).ops);
  }

  lemma IdleBalance(s: State, op: Atomic)
    requires Idle(s) && Balanced(Count(op, s.ops), s.todo, s.fates, op)
    ensures Count(op, s.ops) == Expected(s.fates, op)
  {
    TotalIdle(s.todo, Pending(op));
  }

  /** Twenty requests that the registry fails, with no response to any request
      between two moments at which none is under way, open the breaker, however the
      requests overlap. */
  lemma OutageOpensBreaker(threads: nat, earlier: seq<Step>, steps: seq<Step>)
    requires IsRun(Start(threads), earlier) && Idle(After(Start(threads), earlier))
    requires IsRun(After(Start(threads), earlier), steps) && Idle(After(After(Start(threads), earlier), steps))
    requires Responding(steps) == 0 && Failing(steps) >= BREAKER_THRESHOLD
    ensures After(After(Start(threads), earlier), steps).c.tripped
  {
    hide Accounted, Count, Balanced, Expected, Idle, Reached, Failing, Responding;
    var s := After(Start(threads), earlier);
    var t := After(s, steps);
    FromStart(threads, earlier);
    FormedOf(s);
    RunOk(s, steps);
    OpsBalanced(s, steps, AddConsecutive);
    OpsBalanced(s, steps, ResetConsecutive);
    BegunCounts(s, steps);
    IdleBalance(s, AddConsecutive);
    IdleBalance(t, AddConsecutive);
    IdleBalance(s, ResetConsecutive);
    IdleBalance(t, ResetConsecutive);
    var window := t.ops[|s.ops|..];
    assert t.ops == s.ops + window;
    CountConcat(AddConsecutive, s.ops, window);
    CountConcat(ResetConsecutive, s.ops, window);
    CountsNone(ResetConsecutive, window);
    if !t.c.tripped {
      assert Outage(t.ops, |s.ops|, |t.ops|) by { assert t.ops[|s.ops|..|t.ops|] == window; }
      ReachedMeansOutage(t.ops);
      NobodyStores(t);
    }
  }

  lemma FormedOf(s: State)
    requires Accounted(s)
    ensures Formed(s)
  {
  }

  lemma NobodyStores(s: State)
    requires Idle(s)
    ensures forall i :: 0 <= i < |s.todo| ==> !Storing(s.todo[i])
  {
  }

  /** Without any response the twentieth failure decides: once every request has
      returned, the breaker is open exactly if the registry failed twenty of them. */
  lemma BreakerWithoutResponses(threads: nat, steps: seq<Step>)
    requires IsRun(Start(threads), steps) && Idle(After(Start(threads), steps)) && Responding(steps) == 0
    ensures After(Start(threads), steps).c.tripped <==> Failing(steps) >= BREAKER_THRESHOLD
  {
    if Failing(steps) >= BREAKER_THRESHOLD {
      OutageOpensBreaker(threads, [], steps);
    } else {
      FewFailuresKeepClosed(threads, steps);
    }
  }
}
