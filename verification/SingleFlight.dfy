/**
  The CLI's lookup caches: concurrent callers with the same key share one
  resolver call, a completed call is cached, and a resolver that panics still
  completes its call.  The three lookups (latest version, npm metadata, tag
  commit) differ only in their argument, key and value types.
 */
module SingleFlight {
  import opened Basics

  /** A lookup: how arguments map to cache keys, what the resolver answers when
      it did or did not see its context cancelled, and the zero value. */
  datatype Lookup<!A, !K, !V> = Lookup(key: A -> K, resolve: (A, bool) -> V, zero: V)

  datatype Outcome = Running | Completed(sawCancel: bool) | Crashed

  /** One resolver call; its done channel is closed once the outcome is known. */
  datatype Call<A, K, V> = Call(key: K, arg: A, leader: nat, value: V, outcome: Outcome)

  /** What the mutex guards. */
  datatype Store<A, K, V> = Store(cache: map<K, V>, inflight: map<K, nat>, calls: seq<Call<A, K, V>>)

  datatype Source = FromCache | Shared(call: nat) | Own(call: nat) | GaveUp

  datatype Phase<V> =
    | Ready
    | Waiting(call: nat)
    | Resolving(call: nat)
    | Resolved(call: nat, value: V, sawCancel: bool)
    | Panicking(call: nat)
    | Returned(value: V, source: Source)
    | Panicked

  datatype Caller<A, V> = Caller(arg: A, cancelled: bool, phase: Phase<V>)

  datatype State<A, K, V> = State(store: Store<A, K, V>, callers: seq<Caller<A, V>>)

  // ----- The two critical sections -----

  datatype Admission<V> = Hit(value: V) | Join(call: nat) | Lead(call: nat)

  function Admit<A, K(==), V>(st: Store<A, K, V>, k: K): Admission<V> {
    if k in st.cache then Hit(st.cache[k])
    else if k in st.inflight then Join(st.inflight[k])
    else Lead(|st.calls|)
  }

  function AfterAdmit<A, K(==), V>(st: Store<A, K, V>, k: K, arg: A, leader: nat, zero: V): Store<A, K, V> {
    if Admit(st, k).Lead?
    then st.(inflight := st.inflight[k := |st.calls|],
             calls := st.calls + [Call(k, arg, leader, zero, Running)])
    else st
  }

  /** The deferred completion: only a call that completed is cached. */
  function Complete<A, K(==), V>(st: Store<A, K, V>, c: nat, value: V, outcome: Outcome): Store<A, K, V>
    requires c < |st.calls|
  {
    var k := st.calls[c].key;
    Store(if outcome.Completed? then st.cache[k := value] else st.cache,
          st.inflight - {k},
          st.calls[c := st.calls[c].(value := value, outcome := outcome)])
  }

  class LookupCache<A, K(==), V> {
    var cache: map<K, V>
    var inflight: map<K, nat>
    var calls: seq<Call<A, K, V>>

    function View(): Store<A, K, V>
      reads this
    {
      Store(cache, inflight, calls)
    }

    constructor ()
      ensures View() == Store(map[], map[], [])
    {
      cache, inflight, calls := map[], map[], [];
    }

    /** The lookup up to its first unlock. */
    method Enter(k: K, arg: A, leader: nat, zero: V) returns (admission: Admission<V>)
      modifies this
      ensures admission == Admit(old(View()), k)
      ensures View() == AfterAdmit(old(View()), k, arg, leader, zero)
    {
      if k in cache {
        return Hit(cache[k]);
      }
      if k in inflight {
        return Join(inflight[k]);
      }
      var call := |calls|;
      inflight := inflight[k := call];
      calls := calls + [Call(k, arg, leader, zero, Running)];
      return Lead(call);
    }

    /** The deferred completion of a leader's call. */
    method Finish(c: nat, value: V, outcome: Outcome)
      requires c < |calls|
      modifies this
      ensures View() == Complete(old(View()), c, value, outcome)
    {
      var k := calls[c].key;
      calls := calls[c := calls[c].(value := value, outcome := outcome)];
      if outcome.Completed? {
        cache := cache[k := value];
      }
      inflight := inflight - {k};
    }
  }

  // ----- Steps of any number of callers -----

  datatype Step =
    | Enter(i: nat)
    | Cancel(i: nat)
    | Resolve(i: nat, sawCancel: bool)
    | Panic(i: nat)
    | Finish(i: nat)
    | Receive(i: nat)
    | GiveUp(i: nat)

  predicate Enabled<A, K, V>(s: State<A, K, V>, step: Step) {
    && step.i < |s.callers|
    && var caller := s.callers[step.i];
    match step
    case Enter(_) => caller.phase.Ready?
    case Cancel(_) => true
    case Resolve(_, saw) => caller.phase.Resolving? && (saw ==> caller.cancelled)
    case Panic(_) => caller.phase.Resolving?
    case Finish(_) =>
      (caller.phase.Resolved? || caller.phase.Panicking?) && caller.phase.call < |s.store.calls|
    case Receive(_) =>
      && caller.phase.Waiting? && caller.phase.call < |s.store.calls|
      && !s.store.calls[caller.phase.call].outcome.Running?
    case GiveUp(_) => caller.phase.Waiting? && caller.cancelled
  }

  function At<A, K, V>(s: State<A, K, V>, i: nat, phase: Phase<V>): State<A, K, V>
    requires i < |s.callers|
  {
    s.(callers := s.callers[i := s.callers[i].(phase := phase)])
  }

  function Apply<A, K(==), V>(lk: Lookup<A, K, V>, s: State<A, K, V>, step: Step): State<A, K, V>
    requires Enabled(s, step)
  {
    var i := step.i;
    var caller := s.callers[i];
    match step
    case Enter(_) =>
      var k := lk.key(caller.arg);
      var t := s.(store := AfterAdmit(s.store, k, caller.arg, i, lk.zero));
      (match Admit(s.store, k)
       case Hit(v) => At(t, i, Returned(v, FromCache))
       case Join(c) => At(t, i, Waiting(c))
       case Lead(c) => At(t, i, Resolving(c)))
    case Cancel(_) => s.(callers := s.callers[i := caller.(cancelled := true)])
    case Resolve(_, saw) => At(s, i, Resolved(caller.phase.call, lk.resolve(caller.arg, saw), saw))
    case Panic(_) => At(s, i, Panicking(caller.phase.call))
    case Finish(_) =>
      var c := caller.phase.call;
      if caller.phase.Resolved? then
        var v := caller.phase.value;
        At(s.(store := Complete(s.store, c, v, Completed(caller.phase.sawCancel))), i, Returned(v, Own(c)))
      else At(s.(store := Complete(s.store, c, lk.zero, Crashed)), i, Panicked)
    case Receive(_) =>
      At(s, i, Returned(s.store.calls[caller.phase.call].value, Shared(caller.phase.call)))
    case GiveUp(_) => At(s, i, Returned(lk.zero, GaveUp))
  }

  // ----- Invariant -----

  /** A call's value is what its outcome says. */
  predicate CallOk<A, K(==), V(==)>(lk: Lookup<A, K, V>, call: Call<A, K, V>) {
    && call.key == lk.key(call.arg)
    && (match call.outcome
        case Running => true
        case Completed(saw) => call.value == lk.resolve(call.arg, saw)
        case Crashed => call.value == lk.zero)
  }

  /** Cached keys are exactly those with a completed call, in-flight keys exactly
      those with a running one, and there is never more than one of either. */
  ghost predicate StoreOk<A, K, V>(lk: Lookup<A, K, V>, st: Store<A, K, V>) {
    && (forall c :: 0 <= c < |st.calls| ==> CallOk(lk, st.calls[c]))
    && (forall c :: 0 <= c < |st.calls| && st.calls[c].outcome.Completed? ==>
          st.calls[c].key in st.cache && st.cache[st.calls[c].key] == st.calls[c].value)
    && (forall k :: k in st.cache ==> exists c: nat :: CachedBy(st, k, c))
    && (forall c :: 0 <= c < |st.calls| && st.calls[c].outcome.Running? ==>
          st.calls[c].key in st.inflight && st.inflight[st.calls[c].key] == c)
    && (forall k :: k in st.inflight ==>
          st.inflight[k] < |st.calls| && st.calls[st.inflight[k]].key == k && st.calls[st.inflight[k]].outcome.Running?)
    && st.cache.Keys !! st.inflight.Keys
    && (forall c: nat, d: nat | c < |st.calls| && st.calls[c].outcome.Completed? && CachedBy(st, st.calls[c].key, d) ::
          c == d)
  }

  ghost predicate CachedBy<A, K, V>(st: Store<A, K, V>, k: K, c: nat) {
    c < |st.calls| && st.calls[c].key == k && st.calls[c].outcome.Completed?
  }

  /** A caller's phase agrees with the call it refers to. */
  ghost predicate CallerOk<A, K, V>(lk: Lookup<A, K, V>, st: Store<A, K, V>, caller: Caller<A, V>, i: nat) {
    match caller.phase
    case Waiting(c) => c < |st.calls| && st.calls[c].key == lk.key(caller.arg)
    case Resolving(c) => Leads(st, caller, i, c)
    case Resolved(c, v, saw) => Leads(st, caller, i, c) && v == lk.resolve(caller.arg, saw)
    case Panicking(c) => Leads(st, caller, i, c)
    case Returned(v, FromCache) =>
      exists c: nat :: CachedBy(st, lk.key(caller.arg), c) && st.calls[c].value == v
    case Returned(v, Shared(c)) =>
      c < |st.calls| && st.calls[c].key == lk.key(caller.arg) && !st.calls[c].outcome.Running? && st.calls[c].value == v
    case Returned(v, Own(c)) => CachedBy(st, lk.key(caller.arg), c) && st.calls[c].value == v && st.calls[c].leader == i
    case Returned(v, GaveUp) => caller.cancelled && v == lk.zero
    case _ => true
  }

  ghost predicate Leads<A, K, V>(st: Store<A, K, V>, caller: Caller<A, V>, i: nat, c: nat) {
    c < |st.calls| && st.calls[c].leader == i && st.calls[c].arg == caller.arg && st.calls[c].outcome.Running?
  }

  /** The leader of a running call is still on its way to completing it. */
  predicate Led<A, V>(callers: seq<Caller<A, V>>, leader: nat, c: nat) {
    && leader < |callers|
    && var phase := callers[leader].phase;
    (phase.Resolving? || phase.Resolved? || phase.Panicking?) && phase.call == c
  }

  ghost predicate Inv<A, K, V>(lk: Lookup<A, K, V>, s: State<A, K, V>) {
    && StoreOk(lk, s.store)
    && (forall c :: 0 <= c < |s.store.calls| && s.store.calls[c].outcome.Running? ==>
          Led(s.callers, s.store.calls[c].leader, c))
    && forall i :: 0 <= i < |s.callers| ==> CallerOk(lk, s.store, s.callers[i], i)
  }

  // ----- Preservation -----

  lemma AdmitOk<A, K, V>(lk: Lookup<A, K, V>, st: Store<A, K, V>, arg: A, leader: nat)
    requires StoreOk(lk, st)
    ensures StoreOk(lk, AfterAdmit(st, lk.key(arg), arg, leader, lk.zero))
  {
    var k := lk.key(arg);
    var next := AfterAdmit(st, k, arg, leader, lk.zero);
    if Admit(st, k).Lead? {
      forall k' | k' in next.cache ensures exists c: nat :: CachedBy(next, k', c) {
        var c: nat :| CachedBy(st, k', c);
        assert CachedBy(next, k', c);
      }
      forall c: nat, d: nat | c < |next.calls| && next.calls[c].outcome.Completed? && CachedBy(next, next.calls[c].key, d)
        ensures c == d
      {
        assert CachedBy(st, st.calls[c].key, d);
      }
    }
  }

  lemma CompleteOk<A, K, V>(lk: Lookup<A, K, V>, st: Store<A, K, V>, c: nat, value: V, outcome: Outcome)
    requires StoreOk(lk, st) && c < |st.calls| && st.calls[c].outcome.Running? && !outcome.Running?
    requires CallOk(lk, st.calls[c].(value := value, outcome := outcome))
    ensures StoreOk(lk, Complete(st, c, value, outcome))
  {
    var next, key := Complete(st, c, value, outcome), st.calls[c].key;
    forall k | k in next.cache ensures exists d: nat :: CachedBy(next, k, d) {
      if k == key && outcome.Completed? {
        assert CachedBy(next, k, c);
      } else {
        var d: nat :| CachedBy(st, k, d);
        assert CachedBy(next, k, d);
      }
    }
    forall a: nat, b: nat | a < |next.calls| && next.calls[a].outcome.Completed? && CachedBy(next, next.calls[a].key, b)
      ensures a == b
    {
      assert b != c ==> CachedBy(st, st.calls[a].key, b);
    }
  }

  /** Growing the store keeps what was known about a caller. */
  lemma CallerStays<A, K, V>(lk: Lookup<A, K, V>, st: Store<A, K, V>, next: Store<A, K, V>, caller: Caller<A, V>, i: nat)
    requires CallerOk(lk, st, caller, i)
    requires |st.calls| <= |next.calls|
    requires forall c :: 0 <= c < |st.calls| ==>
               next.calls[c] == st.calls[c] ||
               (st.calls[c].outcome.Running? && st.calls[c].leader != i &&
                next.calls[c].key == st.calls[c].key)
    ensures CallerOk(lk, next, caller, i)
  {
    if caller.phase.Returned? && caller.phase.source.FromCache? {
      var c: nat :| CachedBy(st, lk.key(caller.arg), c) && st.calls[c].value == caller.phase.value;
      assert CachedBy(next, lk.key(caller.arg), c);
    }
  }

  lemma OthersStay<A, K, V>(lk: Lookup<A, K, V>, s: State<A, K, V>, step: Step)
    requires Inv(lk, s) && Enabled(s, step)
    ensures var t := Apply(lk, s, step);
      && |t.callers| == |s.callers|
      && forall j :: 0 <= j < |t.callers| && j != step.i ==> CallerOk(lk, t.store, t.callers[j], j)
  {
    var t := Apply(lk, s, step);
    assert CallerOk(lk, s.store, s.callers[step.i], step.i);
    forall j | 0 <= j < |t.callers| && j != step.i ensures CallerOk(lk, t.store, t.callers[j], j) {
      CallerStays(lk, s.store, t.store, s.callers[j], j);
    }
  }

  lemma EnterCaller<A, K, V>(lk: Lookup<A, K, V>, s: State<A, K, V>, i: nat)
    requires Inv(lk, s) && Enabled(s, Enter(i))
    ensures var t := Apply(lk, s, Enter(i));
      CallerOk(lk, t.store, t.callers[i], i)
  {
    var k := lk.key(s.callers[i].arg);
    if k in s.store.cache {
      var c: nat :| CachedBy(s.store, k, c);
    }
  }

  /** The leaders of running calls: those from before, and perhaps the caller. */
  lemma StaysLed<A, K, V>(lk: Lookup<A, K, V>, s: State<A, K, V>, step: Step, c: nat)
    requires Inv(lk, s) && Enabled(s, step)
    requires var calls := Apply(lk, s, step).store.calls;
      c < |calls| && calls[c].outcome.Running?
    ensures var t := Apply(lk, s, step);
      Led(t.callers, t.store.calls[c].leader, c)
  {
    assert CallerOk(lk, s.store, s.callers[step.i], step.i);
    if c < |s.store.calls| && s.store.calls[c].outcome.Running? {
      assert Led(s.callers, s.store.calls[c].leader, c);
    }
  }

  lemma EnterInv<A, K, V>(lk: Lookup<A, K, V>, s: State<A, K, V>, i: nat)
    requires Inv(lk, s) && Enabled(s, Enter(i))
    ensures Inv(lk, Apply(lk, s, Enter(i)))
  {
    hide StoreOk, CallerOk, Led;
    var t := Apply(lk, s, Enter(i));
    OthersStay(lk, s, Enter(i));
    AdmitOk(lk, s.store, s.callers[i].arg, i);
    EnterCaller(lk, s, i);
    forall c | 0 <= c < |t.store.calls| && t.store.calls[c].outcome.Running?
      ensures Led(t.callers, t.store.calls[c].leader, c)
    {
      StaysLed(lk, s, Enter(i), c);
    }
  }

  lemma FinishStore<A, K, V>(lk: Lookup<A, K, V>, s: State<A, K, V>, i: nat)
    requires Inv(lk, s) && Enabled(s, Finish(i))
    ensures var t := Apply(lk, s, Finish(i));
      StoreOk(lk, t.store) && CallerOk(lk, t.store, t.callers[i], i)
  {
    hide StoreOk;
    var t := Apply(lk, s, Finish(i));
    var c := s.callers[i].phase.call;
    assert CallerOk(lk, s.store, s.callers[i], i);
    assert CallOk(lk, s.store.calls[c]) by { LedCallOk(lk, s.store, c); }
    CompleteOk(lk, s.store, c, t.store.calls[c].value, t.store.calls[c].outcome);
  }

  lemma LedCallOk<A, K, V>(lk: Lookup<A, K, V>, st: Store<A, K, V>, c: nat)
    requires StoreOk(lk, st) && c < |st.calls|
    ensures CallOk(lk, st.calls[c])
  {
  }

  lemma FinishInv<A, K, V>(lk: Lookup<A, K, V>, s: State<A, K, V>, i: nat)
    requires Inv(lk, s) && Enabled(s, Finish(i))
    ensures Inv(lk, Apply(lk, s, Finish(i)))
  {
    hide StoreOk, CallerOk, Led;
    var t := Apply(lk, s, Finish(i));
    OthersStay(lk, s, Finish(i));
    FinishStore(lk, s, i);
    forall c | 0 <= c < |t.store.calls| && t.store.calls[c].outcome.Running?
      ensures Led(t.callers, t.store.calls[c].leader, c)
    {
      StaysLed(lk, s, Finish(i), c);
    }
  }

  lemma StepInv<A, K, V>(lk: Lookup<A, K, V>, s: State<A, K, V>, step: Step)
    requires Inv(lk, s) && Enabled(s, step)
    ensures Inv(lk, Apply(lk, s, step))
  {
    match step
    case Enter(i) => EnterInv(lk, s, i);
    case Finish(i) => FinishInv(lk, s, i);
    case _ =>
      OthersStay(lk, s, step);
      assert CallerOk(lk, s.store, s.callers[step.i], step.i);
      assert CallerOk(lk, Apply(lk, s, step).store, Apply(lk, s, step).callers[step.i], step.i);
  }

  // ----- Whole runs -----

  function Start<A, K, V>(args: seq<A>): State<A, K, V> {
    State(Store(map[], map[], []), seq(|args|, i requires 0 <= i < |args| => Caller(args[i], false, Ready)))
  }

  ghost predicate IsRun<A, K, V>(lk: Lookup<A, K, V>, s: State<A, K, V>, steps: seq<Step>)
    decreases |steps|
  {
    steps == [] || (Enabled(s, steps[0]) && IsRun(lk, Apply(lk, s, steps[0]), steps[1..]))
  }

  ghost function After<A, K, V>(lk: Lookup<A, K, V>, s: State<A, K, V>, steps: seq<Step>): State<A, K, V>
    requires IsRun(lk, s, steps)
    decreases |steps|
  {
    if steps == [] then s else After(lk, Apply(lk, s, steps[0]), steps[1..])
  }

  /** The invariant holds in every run, and a cached value never changes. */
  lemma {:induction false} RunInv<A, K, V>(lk: Lookup<A, K, V>, s: State<A, K, V>, steps: seq<Step>)
    requires Inv(lk, s) && IsRun(lk, s, steps)
    ensures Inv(lk, After(lk, s, steps))
    ensures forall k :: k in s.store.cache ==>
              k in After(lk, s, steps).store.cache && After(lk, s, steps).store.cache[k] == s.store.cache[k]
    decreases |steps|
  {
    if steps != [] {
      StepInv(lk, s, steps[0]);
      var t := Apply(lk, s, steps[0]);
      assert CallerOk(lk, s.store, s.callers[steps[0].i], steps[0].i);
      assert forall k :: k in s.store.cache ==> k in t.store.cache && t.store.cache[k] == s.store.cache[k];
      RunInv(lk, t, steps[1..]);
    }
  }

  lemma StartInv<A, K, V>(lk: Lookup<A, K, V>, args: seq<A>)
    ensures Inv(lk, Start<A, K, V>(args))
  {
  }

  /** Whatever callers, cancellations and panics interleave, no key ever has two
      resolver calls running or two completed, none is cached while one runs,
      and every running call still has a leader that will complete it. */
  lemma OneCallPerKey<A, K, V>(lk: Lookup<A, K, V>, args: seq<A>, steps: seq<Step>, c: nat, d: nat)
    requires IsRun(lk, Start<A, K, V>(args), steps)
    requires var calls := After(lk, Start<A, K, V>(args), steps).store.calls;
      c < |calls| && d < |calls| && calls[c].key == calls[d].key
    ensures var s := After(lk, Start<A, K, V>(args), steps);
      var calls := s.store.calls;
      && (calls[c].outcome.Running? && calls[d].outcome.Running? ==> c == d)
      && (calls[c].outcome.Completed? && calls[d].outcome.Completed? ==> c == d)
      && (calls[c].outcome.Running? ==> calls[c].key !in s.store.cache && Led(s.callers, calls[c].leader, c))
  {
    StartInv(lk, args);
    RunInv(lk, Start<A, K, V>(args), steps);
    var st := After(lk, Start<A, K, V>(args), steps).store;
    if st.calls[c].outcome.Completed? && st.calls[d].outcome.Completed? {
      assert CachedBy(st, st.calls[c].key, d);
    }
  }

  /** The call a returned value came from. */
  ghost predicate AnsweredBy<A, K, V>(lk: Lookup<A, K, V>, s: State<A, K, V>, i: nat, c: nat)
    requires i < |s.callers| && s.callers[i].phase.Returned?
  {
    && c < |s.store.calls|
    && s.store.calls[c].key == lk.key(s.callers[i].arg)
    && s.store.calls[c].value == s.callers[i].phase.value
    && !s.store.calls[c].outcome.Running?
    && (s.store.calls[c].outcome.Crashed? ==> s.callers[i].phase.source == Shared(c))
  }

  /** Every caller that did not give up got the answer of a call for its own key:
      what the resolver said, or the zero value if it shared a panicked call. */
  lemma Answers<A, K, V>(lk: Lookup<A, K, V>, args: seq<A>, steps: seq<Step>, i: nat) returns (c: nat)
    requires IsRun(lk, Start<A, K, V>(args), steps)
    requires var s := After(lk, Start<A, K, V>(args), steps);
      i < |s.callers| && s.callers[i].phase.Returned? && s.callers[i].phase.source != GaveUp
    ensures var s := After(lk, Start<A, K, V>(args), steps);
      && AnsweredBy(lk, s, i, c)
      && var call := s.store.calls[c];
      s.callers[i].phase.value == if call.outcome.Crashed? then lk.zero else lk.resolve(call.arg, call.outcome.sawCancel)
  {
    StartInv(lk, args);
    RunInv(lk, Start<A, K, V>(args), steps);
    var s := After(lk, Start<A, K, V>(args), steps);
    assert CallerOk(lk, s.store, s.callers[i], i);
    match s.callers[i].phase.source
    case FromCache =>
      var d: nat :| CachedBy(s.store, lk.key(s.callers[i].arg), d) && s.store.calls[d].value == s.callers[i].phase.value;
      c := d;
    case Shared(d) => c := d;
    case Own(d) => c := d;
  }

  /** Without cancellation the resolver's answer depends on the key alone. */
  ghost predicate Keyed<A(!new), K, V>(lk: Lookup<A, K, V>) {
    forall a, b :: lk.key(a) == lk.key(b) ==> lk.resolve(a, false) == lk.resolve(b, false)
  }

  /** Only a cancelled caller's resolver sees cancellation, and what it answered
      is kept under that caller's own key. */
  ghost predicate CancelTraced<A, K, V>(s: State<A, K, V>) {
    && (forall i :: 0 <= i < |s.callers| && s.callers[i].phase.Resolved? && s.callers[i].phase.sawCancel ==>
          s.callers[i].cancelled)
    && (forall c :: 0 <= c < |s.store.calls| && s.store.calls[c].outcome == Completed(true) ==>
          CancelledCaller(s, s.store.calls[c].leader, s.store.calls[c].arg))
  }

  ghost predicate CancelledCaller<A, K, V>(s: State<A, K, V>, i: nat, arg: A) {
    i < |s.callers| && s.callers[i].cancelled && s.callers[i].arg == arg
  }

  lemma TraceStep<A, K, V>(lk: Lookup<A, K, V>, s: State<A, K, V>, step: Step)
    requires Inv(lk, s) && CancelTraced(s) && Enabled(s, step)
    ensures CancelTraced(Apply(lk, s, step))
  {
    hide StoreOk;
    var t := Apply(lk, s, step);
    assert CallerOk(lk, s.store, s.callers[step.i], step.i);
    forall c | 0 <= c < |t.store.calls| && t.store.calls[c].outcome == Completed(true)
      ensures CancelledCaller(t, t.store.calls[c].leader, t.store.calls[c].arg)
    {
      if c < |s.store.calls| && s.store.calls[c].outcome == Completed(true) {
        assert CancelledCaller(s, s.store.calls[c].leader, s.store.calls[c].arg);
      }
    }
  }

  lemma {:induction false} RunTraced<A, K, V>(lk: Lookup<A, K, V>, s: State<A, K, V>, steps: seq<Step>)
    requires Inv(lk, s) && CancelTraced(s) && IsRun(lk, s, steps)
    ensures CancelTraced(After(lk, s, steps))
    decreases |steps|
  {
    hide Inv, CancelTraced;
    if steps != [] {
      StepInv(lk, s, steps[0]);
      TraceStep(lk, s, steps[0]);
      RunTraced(lk, Apply(lk, s, steps[0]), steps[1..]);
    }
  }

  /** Only the leader's cancellation can spoil an answer: unless the call behind
      it panicked, a lookup returns what the uncached lookup would whenever the
      caller that led the call was not cancelled, whoever else was. */
  lemma LeaderDecides<A(!new), K, V>(lk: Lookup<A, K, V>, args: seq<A>, steps: seq<Step>, i: nat) returns (c: nat)
    requires Keyed(lk) && IsRun(lk, Start<A, K, V>(args), steps)
    requires var s := After(lk, Start<A, K, V>(args), steps);
      i < |s.callers| && s.callers[i].phase.Returned? && s.callers[i].phase.source != GaveUp
    ensures var s := After(lk, Start<A, K, V>(args), steps);
      && AnsweredBy(lk, s, i, c)
      && var call := s.store.calls[c];
      && call.leader < |s.callers| && lk.key(s.callers[call.leader].arg) == lk.key(s.callers[i].arg)
      && (call.outcome.Crashed? ==> s.callers[i].phase == Returned(lk.zero, Shared(c)))
      && (call.outcome.Completed? && !s.callers[call.leader].cancelled ==>
            s.callers[i].phase.value == lk.resolve(s.callers[i].arg, false))
  {
    StartInv(lk, args);
    RunInv(lk, Start<A, K, V>(args), steps);
    RunTraced(lk, Start<A, K, V>(args), steps);
    c := Answers(lk, args, steps, i);
    var s := After(lk, Start<A, K, V>(args), steps);
    var call := s.store.calls[c];
    LedCallOk(lk, s.store, c);
    RunOwned(lk, Start<A, K, V>(args), steps);
    assert Owned(s, c);
    assert call.outcome == Completed(true) ==> CancelledCaller(s, call.leader, call.arg);
  }

  /** Every call was begun by its leader, with the leader's argument. */
  ghost predicate Owned<A, K, V>(s: State<A, K, V>, c: nat) {
    && c < |s.store.calls|
    && s.store.calls[c].leader < |s.callers|
    && s.callers[s.store.calls[c].leader].arg == s.store.calls[c].arg
  }

  ghost predicate AllOwned<A, K, V>(s: State<A, K, V>) {
    forall c: nat :: c < |s.store.calls| ==> Owned(s, c)
  }

  lemma OwnedStep<A, K, V>(lk: Lookup<A, K, V>, s: State<A, K, V>, step: Step)
    requires Enabled(s, step) && AllOwned(s)
    ensures AllOwned(Apply(lk, s, step))
  {
    var t := Apply(lk, s, step);
    forall c: nat | c < |t.store.calls| ensures Owned(t, c) {
      assert c < |s.store.calls| ==> Owned(s, c);
    }
  }

  lemma {:induction false} RunOwned<A, K, V>(lk: Lookup<A, K, V>, s: State<A, K, V>, steps: seq<Step>)
    requires IsRun(lk, s, steps) && AllOwned(s)
    ensures AllOwned(After(lk, s, steps))
    decreases |steps|
  {
    if steps != [] {
      hide AllOwned;
      OwnedStep(lk, s, steps[0]);
      RunOwned(lk, Apply(lk, s, steps[0]), steps[1..]);
    }
  }

  /** What became of a call is what its leader did: still on its way, returned with
      the call's value, or panicked. */
  ghost predicate LeaderOk<A, K, V>(s: State<A, K, V>, c: nat) {
    && c < |s.store.calls| && s.store.calls[c].leader < |s.callers|
    && var call, phase := s.store.calls[c], s.callers[s.store.calls[c].leader].phase;
    match call.outcome
    case Running => Led(s.callers, call.leader, c)
    case Completed(_) => phase == Returned(call.value, Own(c))
    case Crashed => phase.Panicked?
  }

  ghost predicate LeadersOk<A, K, V>(s: State<A, K, V>) {
    forall c: nat :: c < |s.store.calls| ==> LeaderOk(s, c)
  }

  lemma LeaderStep<A, K, V>(lk: Lookup<A, K, V>, s: State<A, K, V>, step: Step, c: nat)
    requires Inv(lk, s) && LeadersOk(s) && Enabled(s, step) && c < |Apply(lk, s, step).store.calls|
    ensures LeaderOk(Apply(lk, s, step), c)
  {
    hide StoreOk;
    assert CallerOk(lk, s.store, s.callers[step.i], step.i);
    if c < |s.store.calls| {
      assert LeaderOk(s, c);
    }
  }

  lemma {:induction false} RunLeaders<A, K, V>(lk: Lookup<A, K, V>, s: State<A, K, V>, steps: seq<Step>)
    requires Inv(lk, s) && LeadersOk(s) && IsRun(lk, s, steps)
    ensures LeadersOk(After(lk, s, steps))
    decreases |steps|
  {
    if steps != [] {
      hide Inv, LeaderOk;
      var t := Apply(lk, s, steps[0]);
      StepInv(lk, s, steps[0]);
      forall c: nat | c < |t.store.calls| ensures LeaderOk(t, c) {
        LeaderStep(lk, s, steps[0], c);
      }
      RunLeaders(lk, t, steps[1..]);
    }
  }

  /** In every run a call's leader has returned the call's value once it completed
      and has panicked if it crashed; only other callers wait for the call or share
      its outcome. */
  lemma LeaderNeverShares<A, K, V>(lk: Lookup<A, K, V>, args: seq<A>, steps: seq<Step>, c: nat, i: nat)
    requires IsRun(lk, Start<A, K, V>(args), steps)
    requires var s := After(lk, Start<A, K, V>(args), steps);
      c < |s.store.calls| && i < |s.callers|
    ensures var s := After(lk, Start<A, K, V>(args), steps);
      var call := s.store.calls[c];
      && call.leader < |s.callers|
      && (call.outcome.Completed? ==> s.callers[call.leader].phase == Returned(call.value, Own(c)))
      && (call.outcome.Crashed? ==> s.callers[call.leader].phase.Panicked?)
      && (s.callers[i].phase == Waiting(c) ==> call.leader != i)
      && (s.callers[i].phase.Returned? && s.callers[i].phase.source == Shared(c) ==> call.leader != i)
  {
    StartInv(lk, args);
    RunLeaders(lk, Start<A, K, V>(args), steps);
    assert LeaderOk(After(lk, Start<A, K, V>(args), steps), c);
  }

  // ----- When the leader's cancellation does spoil it -----

  /** The call's resolver has answered, and has or has not seen cancellation. */
  ghost predicate SawIs<A, K, V>(s: State<A, K, V>, c: nat, saw: bool) {
    && c < |s.store.calls|
    && var call := s.store.calls[c];
    || call.outcome == Completed(saw)
    || (call.outcome.Running? && call.leader < |s.callers| && s.callers[call.leader].phase.Resolved? &&
        s.callers[call.leader].phase.call == c && s.callers[call.leader].phase.sawCancel == saw)
  }

  lemma SawStep<A, K, V>(lk: Lookup<A, K, V>, s: State<A, K, V>, step: Step, c: nat, saw: bool)
    requires Inv(lk, s) && Enabled(s, step) && SawIs(s, c, saw)
    ensures SawIs(Apply(lk, s, step), c, saw)
  {
    hide StoreOk;
    assert CallerOk(lk, s.store, s.callers[step.i], step.i);
  }

  lemma {:induction false} SawRun<A, K, V>(lk: Lookup<A, K, V>, s: State<A, K, V>, steps: seq<Step>, c: nat, saw: bool)
    requires Inv(lk, s) && IsRun(lk, s, steps) && SawIs(s, c, saw)
    ensures SawIs(After(lk, s, steps), c, saw)
    decreases |steps|
  {
    if steps != [] {
      hide Inv, SawIs;
      StepInv(lk, s, steps[0]);
      SawStep(lk, s, steps[0], c, saw);
      SawRun(lk, Apply(lk, s, steps[0]), steps[1..], c, saw);
    }
  }

  /** The resolver answers in this step. */
  ghost predicate Resolves<A, K, V>(s: State<A, K, V>, step: Step, c: nat) {
    step.Resolve? && step.i < |s.callers| && s.callers[step.i].phase == Resolving(c)
  }

  lemma UnseenStep<A, K, V>(lk: Lookup<A, K, V>, s: State<A, K, V>, step: Step, c: nat, saw: bool)
    requires Inv(lk, s) && Enabled(s, step)
    requires forall x :: !SawIs(s, c, x)
    ensures Resolves(s, step, c) ==> SawIs(Apply(lk, s, step), c, step.sawCancel)
    ensures SawIs(Apply(lk, s, step), c, saw) ==> Resolves(s, step, c) && step.sawCancel == saw
  {
    hide StoreOk;
    assert CallerOk(lk, s.store, s.callers[step.i], step.i);
    assert !SawIs(s, c, saw);
  }

  /** A resolver that notices cancellation: it sees it exactly if its caller has
      been cancelled by the time it answers. */
  ghost predicate Noticing<A, K, V>(lk: Lookup<A, K, V>, s: State<A, K, V>, steps: seq<Step>)
    requires IsRun(lk, s, steps)
    decreases |steps|
  {
    steps == [] ||
    (&& (steps[0].Resolve? ==> (steps[0].sawCancel <==> s.callers[steps[0].i].cancelled))
     && Noticing(lk, Apply(lk, s, steps[0]), steps[1..]))
  }

  /** The step in which call c was answered, and the state before it. */
  ghost predicate AnsweredAt<A, K, V>(lk: Lookup<A, K, V>, s: State<A, K, V>, steps: seq<Step>, c: nat, k: nat)
    requires IsRun(lk, s, steps)
    decreases |steps|
  {
    && k < |steps|
    && if k == 0 then Resolves(s, steps[0], c)
       else AnsweredAt(lk, Apply(lk, s, steps[0]), steps[1..], c, k - 1)
  }

  /** Whether caller i had been cancelled before step k. */
  ghost predicate CancelledBy<A, K, V>(lk: Lookup<A, K, V>, s: State<A, K, V>, steps: seq<Step>, i: nat, k: nat)
    requires IsRun(lk, s, steps)
    decreases |steps|
  {
    && k < |steps|
    && if k == 0 then i < |s.callers| && s.callers[i].cancelled
       else CancelledBy(lk, Apply(lk, s, steps[0]), steps[1..], i, k - 1)
  }

  lemma {:induction false} AnswerMoment<A, K, V>(
      lk: Lookup<A, K, V>, s: State<A, K, V>, steps: seq<Step>, c: nat, saw: bool) returns (k: nat)
    requires Inv(lk, s) && IsRun(lk, s, steps) && Noticing(lk, s, steps)
    requires (forall x :: !SawIs(s, c, x)) && SawIs(After(lk, s, steps), c, saw)
    ensures AnsweredAt(lk, s, steps, c, k)
    ensures saw <==> CancelledBy(lk, s, steps, steps[k].i, k)
    decreases |steps|
  {
    hide Inv, SawIs;
    assert steps != [] by { assert !SawIs(s, c, saw); }
    var t := Apply(lk, s, steps[0]);
    StepInv(lk, s, steps[0]);
    UnseenStep(lk, s, steps[0], c, true);
    UnseenStep(lk, s, steps[0], c, false);
    if Resolves(s, steps[0], c) {
      k := 0;
      SawRun(lk, t, steps[1..], c, steps[0].sawCancel);
      SawOnce(After(lk, s, steps), c, saw, steps[0].sawCancel);
    } else {
      forall x ensures !SawIs(t, c, x) {
        UnseenStep(lk, s, steps[0], c, x);
      }
      var j := AnswerMoment(lk, t, steps[1..], c, saw);
      k := j + 1;
    }
  }

  lemma SawOnce<A, K, V>(s: State<A, K, V>, c: nat, a: bool, b: bool)
    requires SawIs(s, c, a) && SawIs(s, c, b)
    ensures a == b
  {
  }

  /** The exact condition for a resolver that notices cancellation: a lookup returns
      what the uncached lookup would if and only if the caller that led its call had
      not been cancelled when the resolver answered, or cancellation makes no
      difference to what the resolver answers for that call. */
  lemma SpoiledExactly<A(!new), K, V>(lk: Lookup<A, K, V>, args: seq<A>, steps: seq<Step>, i: nat)
      returns (c: nat, k: nat)
    requires Keyed(lk)
    requires IsRun(lk, Start<A, K, V>(args), steps) && Noticing(lk, Start<A, K, V>(args), steps)
    requires var s := After(lk, Start<A, K, V>(args), steps);
      i < |s.callers| && s.callers[i].phase.Returned? && s.callers[i].phase.source != GaveUp
    ensures var start, s := Start<A, K, V>(args), After(lk, Start<A, K, V>(args), steps);
      && AnsweredBy(lk, s, i, c)
      && (s.store.calls[c].outcome.Completed? ==>
            && AnsweredAt(lk, start, steps, c, k)
            && (s.callers[i].phase.value == lk.resolve(s.callers[i].arg, false) <==>
                  || !CancelledBy(lk, start, steps, steps[k].i, k)
                  || lk.resolve(s.store.calls[c].arg, true) == lk.resolve(s.store.calls[c].arg, false)))
      && (s.store.calls[c].outcome.Crashed? ==> s.callers[i].phase == Returned(lk.zero, Shared(c)))
  {
    var start := Start<A, K, V>(args);
    StartInv(lk, args);
    RunInv(lk, start, steps);
    c := LeaderDecides(lk, args, steps, i);
    var s := After(lk, start, steps);
    LedCallOk(lk, s.store, c);
    k := 0;
    if s.store.calls[c].outcome.Completed? {
      k := AnswerMoment(lk, start, steps, c, s.store.calls[c].outcome.sawCancel);
    }
  }

  /** The exception is real: a leader that is cancelled while its resolver runs
      leaves its failed answer in the cache for callers that were not. */
  lemma CancelledLeaderSpoilsCache()
    ensures
      var lk: Lookup<int, int, int> := Lookup((a: int) => a, (a: int, saw: bool) => if saw then 0 else a + 1, 0);
      var steps := [Enter(0), Cancel(0), Resolve(0, true), Finish(0), Enter(1)];
      && IsRun(lk, Start<int, int, int>([5, 5]), steps)
      && var s := After(lk, Start<int, int, int>([5, 5]), steps);
      |s.callers| == 2 && !s.callers[1].cancelled && s.callers[1].phase == Returned(0, FromCache) && lk.resolve(5, false) == 6
  {
    var lk: Lookup<int, int, int> := Lookup((a: int) => a, (a: int, saw: bool) => if saw then 0 else a + 1, 0);
    var s0 := Start<int, int, int>([5, 5]);
    var s1 := Apply(lk, s0, Enter(0));
    var s2 := Apply(lk, s1, Cancel(0));
    var s3 := Apply(lk, s2, Resolve(0, true));
    var s4 := Apply(lk, s3, Finish(0));
    var s5 := Apply(lk, s4, Enter(1));
    assert IsRun(lk, s5, []) && After(lk, s5, []) == s5;
    assert IsRun(lk, s4, [Enter(1)]) && After(lk, s4, [Enter(1)]) == s5;
    assert IsRun(lk, s3, [Finish(0), Enter(1)]) && After(lk, s3, [Finish(0), Enter(1)]) == s5 by {
      assert [Finish(0), Enter(1)][1..] == [Enter(1)];
    }
    var three := [Resolve(0, true), Finish(0), Enter(1)];
    assert IsRun(lk, s2, three) && After(lk, s2, three) == s5 by { assert three[1..] == [Finish(0), Enter(1)]; }
    var four := [Cancel(0), Resolve(0, true), Finish(0), Enter(1)];
    assert IsRun(lk, s1, four) && After(lk, s1, four) == s5 by { assert four[1..] == three; }
    var five := [Enter(0), Cancel(0), Resolve(0, true), Finish(0), Enter(1)];
    assert five[1..] == four;
  }
}
