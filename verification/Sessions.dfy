/**
  The admin session manager: server-side sessions behind one mutex, with
  absolute and idle expiry, one-time flash values and a periodic cleanup.
  Times are nanoseconds; every operation carries the clock reading it uses.
 */
module Sessions {
  import opened Basics

  const SECOND := 1_000_000_000
  const PRE_AUTH_TTL := 15 * 60 * SECOND
  const DEFAULT_MAX_AGE := 8 * 60 * 60 * SECOND
  const DEFAULT_IDLE := 15 * 60 * SECOND

  datatype Session = Session(
    admin: bool, bootstrap: bool, createdAt: int, lastAccessed: int, expiresAt: Option<int>, flash: map<string, string>)

  datatype Config = Config(maxAge: int, idle: int)

  type Store = map<string, Session>

  function Min(a: int, b: int): int {
    if a <= b then a else b
  }

  // ----- Values the operations compute -----

  function AdminSession(cfg: Config, bootstrap: bool, now: int): Session {
    Session(true, bootstrap, now, now, Some(now + cfg.maxAge), map[])
  }

  function PreAuthSession(cfg: Config, now: int): Session {
    Session(false, false, now, now, Some(now + Min(cfg.maxAge, PRE_AUTH_TTL)), map[])
  }

  /** Past its absolute or its idle limit at this time. */
  predicate Dead(cfg: Config, sess: Session, now: int) {
    || (sess.expiresAt.Some? && now > sess.expiresAt.value)
    || (sess.admin && cfg.idle > 0 && now - sess.lastAccessed > cfg.idle)
  }

  predicate Reusable(sess: Session, now: int) {
    !sess.admin && sess.expiresAt.Some? && now < sess.expiresAt.value && sess.expiresAt.value - now >= SECOND
  }

  function WithoutAdmins(s: Store): Store {
    map id | id in s && !s[id].admin :: s[id]
  }

  function Cleaned(cfg: Config, s: Store, now: int): Store {
    map id | id in s && !Dead(cfg, s[id], now) :: s[id]
  }

  datatype Op =
    | CreateAdmin(id: string, bootstrap: bool, exclusive: bool, now: int)
    | CreatePreAuth(id: string, now: int)
    | ReusePreAuth(id: string, now: int)
    | Get(id: string, now: int)
    | Delete(id: string)
    | DeleteAdmins
    | SetFlash(id: string, key: string, value: string)
    | GetFlash(id: string, key: string)
    | PeekFlash(id: string, key: string)
    | Cleanup(now: int)

  datatype Result = Nothing | Found(session: Session) | Text(text: string)

  function Flash(s: Store, id: string, key: string): string {
    if id in s && key in s[id].flash then s[id].flash[key] else ""
  }

  function Next(cfg: Config, s: Store, op: Op): Store {
    match op
    case CreateAdmin(id, bootstrap, exclusive, now) =>
      (if exclusive then WithoutAdmins(s) else s)[id := AdminSession(cfg, bootstrap, now)]
    case CreatePreAuth(id, now) => s[id := PreAuthSession(cfg, now)]
    case ReusePreAuth(id, now) =>
      if id !in s || s[id].admin then s
      else if Reusable(s[id], now) then s[id := s[id].(lastAccessed := now)]
      else s - {id}
    case Get(id, now) =>
      if id !in s then s
      else if Dead(cfg, s[id], now) then s - {id}
      else s[id := s[id].(lastAccessed := now)]
    case Delete(id) => s - {id}
    case DeleteAdmins => WithoutAdmins(s)
    case SetFlash(id, key, value) =>
      if id in s then s[id := s[id].(flash := s[id].flash[key := value])] else s
    case GetFlash(id, key) =>
      if id in s then s[id := s[id].(flash := s[id].flash - {key})] else s
    case PeekFlash(_, _) => s
    case Cleanup(now) => Cleaned(cfg, s, now)
  }

  function Answer(cfg: Config, s: Store, op: Op): Result {
    match op
    case CreateAdmin(id, _, _, _) => Found(Next(cfg, s, op)[id])
    case CreatePreAuth(id, _) => Found(Next(cfg, s, op)[id])
    case ReusePreAuth(id, now) => if id in s && Reusable(s[id], now) then Found(Next(cfg, s, op)[id]) else Nothing
    case Get(id, now) => if id in s && !Dead(cfg, s[id], now) then Found(Next(cfg, s, op)[id]) else Nothing
    case GetFlash(id, key) => Text(Flash(s, id, key))
    case PeekFlash(id, key) => Text(Flash(s, id, key))
    case _ => Nothing
  }

  // ----- Runs -----

  function After(cfg: Config, s: Store, ops: seq<Op>): Store
    decreases |ops|
  {
    if ops == [] then s else After(cfg, Next(cfg, s, ops[0]), ops[1..])
  }

  predicate ReadsFlash(op: Op) { op.GetFlash? || op.PeekFlash? }

  /** What the callers see, flash values aside; cleanups are nobody's call. */
  function Answers(cfg: Config, s: Store, ops: seq<Op>): seq<Result>
    decreases |ops|
  {
    if ops == [] then []
    else (if ops[0].Cleanup? || ReadsFlash(ops[0]) then [] else [Answer(cfg, s, ops[0])])
         + Answers(cfg, Next(cfg, s, ops[0]), ops[1..])
  }

  function DropCleanups(ops: seq<Op>): seq<Op>
    decreases |ops|
  {
    if ops == [] then [] else (if ops[0].Cleanup? then [] else [ops[0]]) + DropCleanups(ops[1..])
  }

  // ----- Cleanup is unobservable -----

  /** `lean` lacks some sessions of `full`, all dead at every time from
      `horizon` on; the others agree. */
  ghost predicate Thinned(cfg: Config, full: Store, lean: Store, horizon: Option<int>) {
    && (forall id :: id in lean ==> id in full && lean[id] == full[id])
    && (forall id :: id in full && id !in lean ==> horizon.Some? && Dead(cfg, full[id], horizon.value))
  }

  function Later(horizon: Option<int>, now: int): Option<int> {
    if horizon.Some? && horizon.value > now then horizon else Some(now)
  }

  predicate NotBefore(now: int, horizon: Option<int>) {
    horizon.None? || now >= horizon.value
  }

  /** A lookup reads the clock under the lock, so after every cleanup before it. */
  predicate GetCurrent(op: Op, horizon: Option<int>) {
    op.Get? ==> NotBefore(op.now, horizon)
  }

  /** A reuse reads it before it takes the lock; its reading may be older. */
  predicate ReuseCurrent(op: Op, horizon: Option<int>) {
    op.ReusePreAuth? ==> NotBefore(op.now, horizon)
  }

  function NextHorizon(horizon: Option<int>, op: Op): Option<int> {
    if op.Cleanup? then Later(horizon, op.now) else horizon
  }

  /** The latest time a cleanup has used. */
  function Horizon(horizon: Option<int>, ops: seq<Op>): Option<int>
    decreases |ops|
  {
    if ops == [] then horizon else Horizon(NextHorizon(horizon, ops[0]), ops[1..])
  }

  predicate GetsCurrent(ops: seq<Op>, horizon: Option<int>)
    decreases |ops|
  {
    ops == [] || (GetCurrent(ops[0], horizon) && GetsCurrent(ops[1..], NextHorizon(horizon, ops[0])))
  }

  predicate ReusesCurrent(ops: seq<Op>, horizon: Option<int>)
    decreases |ops|
  {
    ops == [] || (ReuseCurrent(ops[0], horizon) && ReusesCurrent(ops[1..], NextHorizon(horizon, ops[0])))
  }

  lemma CleanupThins(cfg: Config, full: Store, lean: Store, horizon: Option<int>, now: int)
    requires Thinned(cfg, full, lean, horizon)
    ensures Thinned(cfg, full, Cleaned(cfg, lean, now), Later(horizon, now))
  {
  }

  /** Every operation keeps the stores related, flash reads and stale reuses of
      evicted sessions included. */
  lemma OpKeepsThinned(cfg: Config, full: Store, lean: Store, horizon: Option<int>, op: Op)
    requires Thinned(cfg, full, lean, horizon) && !op.Cleanup? && GetCurrent(op, horizon)
    ensures Thinned(cfg, Next(cfg, full, op), Next(cfg, lean, op), horizon)
  {
  }

  predicate Evicted(full: Store, lean: Store, id: string) { id in full && id !in lean }

  /** What only a session that the cleanup has not evicted can still give. */
  predicate Gives(full: Store, op: Op) {
    match op
    case GetFlash(id, key) => Flash(full, id, key) != ""
    case PeekFlash(id, key) => Flash(full, id, key) != ""
    case ReusePreAuth(id, now) => id in full && Reusable(full[id], now)
    case _ => false
  }

  /** An answer differs exactly when the operation asks an evicted session for a
      flash value it holds, or to be reused at a time before it expired. */
  lemma AnswerDiffersExactly(cfg: Config, full: Store, lean: Store, horizon: Option<int>, op: Op)
    requires Thinned(cfg, full, lean, horizon) && !op.Cleanup? && GetCurrent(op, horizon)
    ensures Answer(cfg, lean, op) != Answer(cfg, full, op) <==>
              (ReadsFlash(op) || op.ReusePreAuth?) && Evicted(full, lean, op.id) && Gives(full, op)
  {
  }

  lemma {:induction false} ThinnedAnswers(cfg: Config, full: Store, lean: Store, horizon: Option<int>, ops: seq<Op>)
    requires Thinned(cfg, full, lean, horizon) && GetsCurrent(ops, horizon) && ReusesCurrent(ops, horizon)
    ensures Answers(cfg, lean, ops) == Answers(cfg, full, DropCleanups(ops))
    decreases |ops|
  {
    if ops != [] {
      var op, rest := ops[0], ops[1..];
      if op.Cleanup? {
        CleanupThins(cfg, full, lean, horizon, op.now);
        ThinnedAnswers(cfg, full, Next(cfg, lean, op), Later(horizon, op.now), rest);
        assert DropCleanups(ops) == DropCleanups(rest) && Answers(cfg, lean, ops) == Answers(cfg, Next(cfg, lean, op), rest);
      } else {
        hide Next, Answer, Thinned;
        OpKeepsThinned(cfg, full, lean, horizon, op);
        if !ReadsFlash(op) {
          SameAnswer(cfg, full, lean, horizon, op);
        }
        ThinnedAnswers(cfg, Next(cfg, full, op), Next(cfg, lean, op), horizon, rest);
        assert ([op] + DropCleanups(rest))[1..] == DropCleanups(rest);
      }
    }
  }

  lemma SameAnswer(cfg: Config, full: Store, lean: Store, horizon: Option<int>, op: Op)
    requires Thinned(cfg, full, lean, horizon) && !op.Cleanup? && !ReadsFlash(op)
    requires GetCurrent(op, horizon) && ReuseCurrent(op, horizon)
    ensures Answer(cfg, lean, op) == Answer(cfg, full, op)
  {
    AnswerDiffersExactly(cfg, full, lean, horizon, op);
  }

  /** Wherever the cleanup goroutine runs in a trace whose lookups and reuses read
      a clock that does not go back behind it, all their answers, and those of all
      other operations but flash reads, are what they would be had it never run. */
  lemma CleanupUnobservable(cfg: Config, s: Store, ops: seq<Op>)
    requires GetsCurrent(ops, None) && ReusesCurrent(ops, None)
    ensures Answers(cfg, s, ops) == Answers(cfg, s, DropCleanups(ops))
  {
    ThinnedAnswers(cfg, s, s, None, ops);
  }

  function TimeOf(op: Op): Option<int> {
    match op
    case CreateAdmin(_, _, _, now) => Some(now)
    case CreatePreAuth(_, now) => Some(now)
    case ReusePreAuth(_, now) => Some(now)
    case Get(_, now) => Some(now)
    case Cleanup(now) => Some(now)
    case _ => None
  }

  /** Clock readings that never go back, in the order of the operations. */
  predicate Ordered(ops: seq<Op>, floor: Option<int>)
    decreases |ops|
  {
    ops == [] ||
    (&& (TimeOf(ops[0]).Some? ==> NotBefore(TimeOf(ops[0]).value, floor))
     && Ordered(ops[1..], if TimeOf(ops[0]).Some? then TimeOf(ops[0]) else floor))
  }

  lemma {:induction false} OrderedIsCurrent(ops: seq<Op>, floor: Option<int>, horizon: Option<int>)
    requires Ordered(ops, floor) && (horizon.Some? ==> floor.Some? && floor.value >= horizon.value)
    ensures GetsCurrent(ops, horizon) && ReusesCurrent(ops, horizon)
    decreases |ops|
  {
    if ops != [] {
      var next := if TimeOf(ops[0]).Some? then TimeOf(ops[0]) else floor;
      OrderedIsCurrent(ops[1..], next, NextHorizon(horizon, ops[0]));
    }
  }

  /** In particular under a clock that never goes back. */
  lemma UnobservableInOrder(cfg: Config, s: Store, ops: seq<Op>)
    requires Ordered(ops, None)
    ensures Answers(cfg, s, ops) == Answers(cfg, s, DropCleanups(ops))
  {
    OrderedIsCurrent(ops, None, None);
    CleanupUnobservable(cfg, s, ops);
  }

  lemma {:induction false} RunThinned(cfg: Config, full: Store, lean: Store, horizon: Option<int>, ops: seq<Op>)
    requires Thinned(cfg, full, lean, horizon) && GetsCurrent(ops, horizon)
    ensures Thinned(cfg, After(cfg, full, DropCleanups(ops)), After(cfg, lean, ops), Horizon(horizon, ops))
    decreases |ops|
  {
    if ops != [] {
      var op, rest := ops[0], ops[1..];
      if op.Cleanup? {
        CleanupThins(cfg, full, lean, horizon, op.now);
        RunThinned(cfg, full, Next(cfg, lean, op), Later(horizon, op.now), rest);
        assert DropCleanups(ops) == DropCleanups(rest);
      } else {
        hide Next, Thinned;
        OpKeepsThinned(cfg, full, lean, horizon, op);
        RunThinned(cfg, Next(cfg, full, op), Next(cfg, lean, op), horizon, rest);
        assert ([op] + DropCleanups(rest))[1..] == DropCleanups(rest);
      }
    }
  }

  predicate Creates(op: Op, id: string) {
    (op.CreateAdmin? || op.CreatePreAuth?) && op.id == id
  }

  predicate NoCreation(ops: seq<Op>, id: string) {
    forall k :: 0 <= k < |ops| ==> !Creates(ops[k], id)
  }

  /** Some cleanup of the trace finds the session dead, as it is without cleanups,
      and nobody creates the ID again afterwards. */
  ghost predicate CleanedAway(cfg: Config, full: Store, ops: seq<Op>, id: string)
    decreases |ops|
  {
    && ops != []
    && if ops[0].Cleanup? then
         || (id in full && Dead(cfg, full[id], ops[0].now) && NoCreation(ops[1..], id))
         || CleanedAway(cfg, full, ops[1..], id)
       else CleanedAway(cfg, Next(cfg, full, ops[0]), ops[1..], id)
  }

  lemma {:induction false} DropKeepsNoCreation(ops: seq<Op>, id: string)
    requires NoCreation(ops, id)
    ensures NoCreation(DropCleanups(ops), id)
    decreases |ops|
  {
    if ops != [] {
      assert !Creates(ops[0], id);
      assert NoCreation(ops[1..], id) by {
        assert forall k :: 0 <= k < |ops[1..]| ==> ops[1..][k] == ops[k + 1];
      }
      DropKeepsNoCreation(ops[1..], id);
    }
  }

  /** An operation neither brings an evicted session back nor evicts one. */
  lemma EvictedStep(cfg: Config, full: Store, lean: Store, horizon: Option<int>, op: Op, id: string)
    requires Thinned(cfg, full, lean, horizon) && !op.Cleanup? && GetCurrent(op, horizon)
    ensures Evicted(Next(cfg, full, op), Next(cfg, lean, op), id) ==> !Creates(op, id) && Evicted(full, lean, id)
    ensures !Creates(op, id) && id !in lean ==> id !in Next(cfg, lean, op)
  {
  }

  lemma NoCreationSplit(ops: seq<Op>, id: string)
    requires ops != []
    ensures NoCreation(ops, id) <==> !Creates(ops[0], id) && NoCreation(ops[1..], id)
  {
    assert forall k :: 0 <= k < |ops[1..]| ==> ops[1..][k] == ops[k + 1];
    if !Creates(ops[0], id) && NoCreation(ops[1..], id) {
      forall k | 0 <= k < |ops| ensures !Creates(ops[k], id) {
        assert k > 0 ==> ops[k] == ops[1..][k - 1];
      }
    }
  }

  lemma {:induction false} EvictedExactly(
      cfg: Config, full: Store, lean: Store, horizon: Option<int>, ops: seq<Op>, id: string)
    requires Thinned(cfg, full, lean, horizon) && GetsCurrent(ops, horizon)
    ensures var full', lean' := After(cfg, full, DropCleanups(ops)), After(cfg, lean, ops);
      Evicted(full', lean', id) <==>
        id in full' && (CleanedAway(cfg, full, ops, id) || (Evicted(full, lean, id) && NoCreation(ops, id)))
    decreases |ops|
  {
    if ops != [] {
      var op, rest := ops[0], ops[1..];
      NoCreationSplit(ops, id);
      if op.Cleanup? {
        hide NoCreation;
        CleanupThins(cfg, full, lean, horizon, op.now);
        EvictedExactly(cfg, full, Next(cfg, lean, op), Later(horizon, op.now), rest, id);
        assert DropCleanups(ops) == DropCleanups(rest);
      } else {
        hide Next, Thinned, NoCreation;
        var full1, lean1 := Next(cfg, full, op), Next(cfg, lean, op);
        OpKeepsThinned(cfg, full, lean, horizon, op);
        EvictedStep(cfg, full, lean, horizon, op, id);
        EvictedExactly(cfg, full1, lean1, horizon, rest, id);
        assert ([op] + DropCleanups(rest))[1..] == DropCleanups(rest);
        if NoCreation(rest, id) {
          StaysPresent(cfg, full1, rest, id);
        }
      }
    }
  }

  /** What is there at the end and was not created on the way was there before. */
  lemma StaysPresent(cfg: Config, s: Store, ops: seq<Op>, id: string)
    requires NoCreation(ops, id)
    ensures id in After(cfg, s, DropCleanups(ops)) ==> id in s
  {
    DropKeepsNoCreation(ops, id);
    IdentityFixed(cfg, s, DropCleanups(ops), id);
  }

  /** The exact exceptions in any trace, with flash reads of dead sessions and
      reuses on stale clock readings anywhere in it: an operation after it is
      answered differently with and without the cleanups if and only if some cleanup
      found its session dead, nobody created the ID again, and the operation asks for
      a flash value the session holds, or for reuse at a reading at which it had not
      expired.  Such a session was dead at the latest time a cleanup has used. */
  lemma CleanupSeenExactly(cfg: Config, s: Store, ops: seq<Op>, op: Op)
    requires GetsCurrent(ops, None) && !op.Cleanup? && GetCurrent(op, Horizon(None, ops))
    ensures var full, lean := After(cfg, s, DropCleanups(ops)), After(cfg, s, ops);
      && (Answer(cfg, lean, op) != Answer(cfg, full, op) <==>
            (ReadsFlash(op) || op.ReusePreAuth?) && CleanedAway(cfg, s, ops, op.id) && Gives(full, op))
      && (forall id :: id in full && CleanedAway(cfg, s, ops, id) ==>
            Horizon(None, ops).Some? && Dead(cfg, full[id], Horizon(None, ops).value))
  {
    hide Answer, Gives, CleanedAway;
    var full, lean := After(cfg, s, DropCleanups(ops)), After(cfg, s, ops);
    RunThinned(cfg, s, s, None, ops);
    AnswerDiffersExactly(cfg, full, lean, Horizon(None, ops), op);
    forall id ensures Evicted(full, lean, id) <==> id in full && CleanedAway(cfg, s, ops, id) {
      EvictedExactly(cfg, s, s, None, ops, id);
    }
    if ReadsFlash(op) || op.ReusePreAuth? {
      GiverExists(full, op);
    }
  }

  /** Right after a cleanup at the latest time so far, the sessions missing are
      exactly the dead ones. */
  lemma CleanupEvicts(cfg: Config, s: Store, ops: seq<Op>, now: int, id: string)
    requires GetsCurrent(ops, None) && id in After(cfg, s, DropCleanups(ops)) && NotBefore(now, Horizon(None, ops))
    ensures Evicted(After(cfg, s, DropCleanups(ops)), Cleaned(cfg, After(cfg, s, ops), now), id) <==>
              Dead(cfg, After(cfg, s, DropCleanups(ops))[id], now)
  {
    RunThinned(cfg, s, s, None, ops);
  }

  lemma GiverExists(full: Store, op: Op)
    requires ReadsFlash(op) || op.ReusePreAuth?
    ensures Gives(full, op) ==> op.id in full
  {
  }

  lemma {:induction false} FlashStaysSpent(cfg: Config, s: Store, ops: seq<Op>, id: string, key: string)
    requires Flash(s, id, key) == ""
    requires forall k :: 0 <= k < |ops| ==> !(ops[k].SetFlash? && ops[k].id == id && ops[k].key == key)
    ensures Flash(After(cfg, s, ops), id, key) == ""
    decreases |ops|
  {
    if ops != [] {
      assert !(ops[0].SetFlash? && ops[0].id == id && ops[0].key == key);
      FlashStaysSpent(cfg, Next(cfg, s, ops[0]), ops[1..], id, key);
    }
  }

  /** A flash value is delivered once: a second read gets nothing, whatever
      happens in between, until somebody sets it again. */
  lemma FlashDeliveredOnce(cfg: Config, s: Store, ops: seq<Op>, id: string, key: string)
    requires forall k :: 0 <= k < |ops| ==> !(ops[k].SetFlash? && ops[k].id == id && ops[k].key == key)
    ensures Answer(cfg, After(cfg, Next(cfg, s, GetFlash(id, key)), ops), GetFlash(id, key)) == Text("")
  {
    FlashStaysSpent(cfg, Next(cfg, s, GetFlash(id, key)), ops, id, key);
  }

  // ----- Identity, lifetime, exclusivity -----

  predicate SameIdentity(a: Session, b: Session) {
    a.admin == b.admin && a.bootstrap == b.bootstrap && a.createdAt == b.createdAt && a.expiresAt == b.expiresAt
  }

  /** Between creations of an ID nothing changes its flags or its expiry, and a
      destroyed ID stays destroyed. */
  lemma {:induction false} IdentityFixed(cfg: Config, s: Store, ops: seq<Op>, id: string)
    requires forall k :: 0 <= k < |ops| ==> !Creates(ops[k], id)
    ensures id in After(cfg, s, ops) ==> id in s && SameIdentity(After(cfg, s, ops)[id], s[id])
    decreases |ops|
  {
    if ops != [] {
      var t := Next(cfg, s, ops[0]);
      assert !Creates(ops[0], id);
      assert id in t ==> id in s && SameIdentity(t[id], s[id]);
      IdentityFixed(cfg, t, ops[1..], id);
    }
  }

  /** A pre-auth session is never an admin session later, and an exclusive login
      ends every other admin session for good. */
  lemma NoEscalation(cfg: Config, s: Store, login: Op, ops: seq<Op>, id: string, now: int)
    requires login.CreatePreAuth? || (login.CreateAdmin? && login.exclusive)
    requires forall k :: 0 <= k < |ops| ==> !Creates(ops[k], id)
    requires login.CreatePreAuth? ==> login.id == id
    requires login.CreateAdmin? ==> login.id != id
    ensures var answer := Answer(cfg, After(cfg, Next(cfg, s, login), ops), Get(id, now));
      answer.Found? ==> !answer.session.admin
  {
    IdentityFixed(cfg, Next(cfg, s, login), ops, id);
  }

  /** Every session's expiry was fixed at its creation. */
  ghost predicate Bounded(cfg: Config, s: Store) {
    forall id :: id in s ==>
      s[id].expiresAt == Some(s[id].createdAt + if s[id].admin then cfg.maxAge else Min(cfg.maxAge, PRE_AUTH_TTL))
  }

  lemma BoundedStep(cfg: Config, s: Store, op: Op)
    requires Bounded(cfg, s)
    ensures Bounded(cfg, Next(cfg, s, op))
  {
  }

  lemma {:induction false} RunBounded(cfg: Config, s: Store, ops: seq<Op>)
    requires Bounded(cfg, s)
    ensures Bounded(cfg, After(cfg, s, ops))
    decreases |ops|
  {
    if ops != [] {
      hide Next, Bounded;
      BoundedStep(cfg, s, ops[0]);
      RunBounded(cfg, Next(cfg, s, ops[0]), ops[1..]);
    }
  }

  /** No history of accesses, reuses or cleanups hands out a session after its
      absolute limit, an admin session after its idle limit, or a login-form
      session once its remaining cookie lifetime would round to zero. */
  lemma LifetimesHold(cfg: Config, ops: seq<Op>, id: string, now: int)
    requires cfg.idle > 0
    ensures var s := After(cfg, map[], ops);
      && (Answer(cfg, s, Get(id, now)).Found? ==>
            && now <= s[id].createdAt + cfg.maxAge
            && (s[id].admin ==> now <= s[id].lastAccessed + cfg.idle)
            && (!s[id].admin ==> now <= s[id].createdAt + PRE_AUTH_TTL))
      && (Answer(cfg, s, ReusePreAuth(id, now)).Found? ==>
            !s[id].admin && now + SECOND <= s[id].createdAt + PRE_AUTH_TTL)
  {
    RunBounded(cfg, map[], ops);
  }

  predicate OnlyAdmin(s: Store, id: string) {
    id in s && s[id].admin && forall other :: other in s && s[other].admin ==> other == id
  }

  lemma ExclusiveLeavesOneAdmin(cfg: Config, s: Store, id: string, bootstrap: bool, now: int)
    ensures var t := Next(cfg, s, CreateAdmin(id, bootstrap, true, now));
      && OnlyAdmin(t, id)
      && forall other :: other in s && !s[other].admin && other != id ==> other in t && t[other] == s[other]
  {
  }

  // ----- A session's life, told from the trace alone -----

  predicate WithinLimits(cfg: Config, admin: bool, expires: int, last: int, now: int) {
    now <= expires && (admin && cfg.idle > 0 ==> now - last <= cfg.idle)
  }

  /** The time of an operation that touches the session. */
  function Touch(admin: bool, op: Op, id: string, last: int): int {
    if op.Get? && op.id == id then op.now
    else if op.ReusePreAuth? && op.id == id && !admin then op.now
    else last
  }

  function LastTouch(admin: bool, ops: seq<Op>, id: string, last: int): int
    decreases |ops|
  {
    if ops == [] then last else LastTouch(admin, ops[1..], id, Touch(admin, ops[0], id, last))
  }

  /** The operation does not end a session that expires at this time and was last
      touched at that one. */
  predicate Spares(cfg: Config, admin: bool, expires: int, last: int, op: Op, id: string) {
    match op
    case Get(other, now) => other == id ==> WithinLimits(cfg, admin, expires, last, now)
    case Cleanup(now) => WithinLimits(cfg, admin, expires, last, now)
    case ReusePreAuth(other, now) => other == id && !admin ==> now + SECOND <= expires
    case Delete(other) => other != id
    case DeleteAdmins => !admin
    case CreateAdmin(_, _, exclusive, _) => !(admin && exclusive)
    case _ => true
  }

  /** No operation of the trace ends the session. */
  predicate Survives(cfg: Config, admin: bool, expires: int, last: int, ops: seq<Op>, id: string)
    decreases |ops|
  {
    ops == [] ||
    (&& Spares(cfg, admin, expires, last, ops[0], id)
     && Survives(cfg, admin, expires, Touch(admin, ops[0], id, last), ops[1..], id))
  }

  predicate Sets(op: Op, id: string, key: string) { op.SetFlash? && op.id == id && op.key == key }

  /** The flash value set last, if it has not been taken since. */
  function FlashOf(ops: seq<Op>, id: string, key: string, value: string): string
    decreases |ops|
  {
    if ops == [] then value
    else FlashOf(ops[1..], id, key,
                 if Sets(ops[0], id, key) then ops[0].value
                 else if ops[0] == GetFlash(id, key) then "" else value)
  }

  lemma LifeStep(cfg: Config, s: Store, op: Op, id: string, key: string)
    requires id in s && s[id].expiresAt.Some? && !Creates(op, id)
    ensures var t, sess := Next(cfg, s, op), s[id];
      && (id in t <==> Spares(cfg, sess.admin, sess.expiresAt.value, sess.lastAccessed, op, id))
      && (id in t ==> SameIdentity(t[id], sess) && t[id].lastAccessed == Touch(sess.admin, op, id, sess.lastAccessed))
      && (id in t ==> Flash(t, id, key) == FlashOf([op], id, key, Flash(s, id, key)))
  {
  }

  lemma {:induction false} LifeExactly(cfg: Config, s: Store, ops: seq<Op>, id: string, key: string)
    requires id in s && s[id].expiresAt.Some? && NoCreation(ops, id)
    ensures var t, sess := After(cfg, s, ops), s[id];
      && (id in t <==> Survives(cfg, sess.admin, sess.expiresAt.value, sess.lastAccessed, ops, id))
      && (id in t ==> SameIdentity(t[id], sess) && t[id].lastAccessed == LastTouch(sess.admin, ops, id, sess.lastAccessed))
      && (id in t ==> Flash(t, id, key) == FlashOf(ops, id, key, Flash(s, id, key)))
    decreases |ops|
  {
    if ops != [] {
      var t := Next(cfg, s, ops[0]);
      NoCreationSplit(ops, id);
      LifeStep(cfg, s, ops[0], id, key);
      hide Next, Spares, Creates, NoCreation;
      if id in t {
        LifeExactly(cfg, t, ops[1..], id, key);
      } else {
        StaysGone(cfg, t, ops[1..], id);
      }
    }
  }

  lemma StaysGone(cfg: Config, s: Store, ops: seq<Op>, id: string)
    requires id !in s && NoCreation(ops, id)
    ensures id !in After(cfg, s, ops)
  {
    IdentityFixed(cfg, s, ops, id);
  }

  /** From its creation on, and until its ID is created again, a session is found
      exactly if nothing in the trace ended it and the lookup falls within its
      limits, counted from its creation and, for an admin session, from the latest
      touch.  It then has the flags it was created with and is touched; a flash value
      is the one set last and not taken since. */
  lemma SessionLife(cfg: Config, s: Store, create: Op, ops: seq<Op>, id: string, key: string, now: int)
    requires Creates(create, id) && NoCreation(ops, id)
    ensures var t, admin := After(cfg, Next(cfg, s, create), ops), create.CreateAdmin?;
      var expires := create.now + if admin then cfg.maxAge else Min(cfg.maxAge, PRE_AUTH_TTL);
      var alive := Survives(cfg, admin, expires, create.now, ops, id);
      var found := Answer(cfg, t, Get(id, now));
      && (found.Found? <==> alive && WithinLimits(cfg, admin, expires, LastTouch(admin, ops, id, create.now), now))
      && (found.Found? ==>
            && found.session.admin == admin && found.session.bootstrap == (admin && create.bootstrap)
            && found.session.createdAt == create.now && found.session.expiresAt == Some(expires)
            && found.session.lastAccessed == now)
      && Answer(cfg, t, PeekFlash(id, key)) == Text(if alive then FlashOf(ops, id, key, "") else "")
  {
    hide Survives, LastTouch, FlashOf, NoCreation, After;
    LifeExactly(cfg, Next(cfg, s, create), ops, id, key);
  }

  // ----- The manager -----

  class SessionManager {
    var sessions: Store
    const maxAge: int
    const idleTimeout: int

    constructor (maxAge: int, idleTimeout: int)
      ensures sessions == map[] && this.maxAge > 0 && this.idleTimeout > 0
      ensures this.maxAge == (if maxAge <= 0 then DEFAULT_MAX_AGE else maxAge)
      ensures this.idleTimeout == (if idleTimeout <= 0 then DEFAULT_IDLE else idleTimeout)
    {
      this.maxAge := if maxAge <= 0 then DEFAULT_MAX_AGE else maxAge;
      this.idleTimeout := if idleTimeout <= 0 then DEFAULT_IDLE else idleTimeout;
      sessions := map[];
    }

    function Cfg(): Config {
      Config(maxAge, idleTimeout)
    }

    method DeleteAdminSessionsLocked()
      modifies this
      ensures sessions == WithoutAdmins(old(sessions))
    {
      ghost var before := sessions;
      var left := sessions.Keys;
      while left != {}
        invariant left <= before.Keys && sessions.Keys <= before.Keys
        invariant forall id :: id in sessions ==> sessions[id] == before[id]
        invariant forall id :: id in before ==> (id in sessions <==> id in left || !before[id].admin)
        decreases |left|
      {
        var id :| id in left;
        left := left - {id};
        if sessions[id].admin {
          sessions := sessions - {id};
        }
      }
    }

    method CreateSession(id: string, bootstrap: bool, exclusive: bool, now: int) returns (sess: Session)
      modifies this
      ensures sessions == Next(Cfg(), old(sessions), CreateAdmin(id, bootstrap, exclusive, now))
      ensures Found(sess) == Answer(Cfg(), old(sessions), CreateAdmin(id, bootstrap, exclusive, now))
    {
      sess := Session(true, bootstrap, now, now, Some(now + maxAge), map[]);
      if exclusive {
        DeleteAdminSessionsLocked();
      }
      sessions := sessions[id := sess];
    }

    method CreateLoginSession(id: string, now: int) returns (sess: Session)
      modifies this
      ensures sessions == Next(Cfg(), old(sessions), CreatePreAuth(id, now))
      ensures Found(sess) == Answer(Cfg(), old(sessions), CreatePreAuth(id, now))
    {
      var ttl := if maxAge < PRE_AUTH_TTL then maxAge else PRE_AUTH_TTL;
      sess := Session(false, false, now, now, Some(now + ttl), map[]);
      sessions := sessions[id := sess];
    }

    method ReusableLoginSession(id: string, now: int) returns (result: Result, ttl: int)
      modifies this
      ensures sessions == Next(Cfg(), old(sessions), ReusePreAuth(id, now))
      ensures result == Answer(Cfg(), old(sessions), ReusePreAuth(id, now))
      ensures result.Found? ==> ttl >= SECOND && result.session.expiresAt == Some(now + ttl)
    {
      result, ttl := Nothing, 0;
      if id !in sessions || sessions[id].admin {
        return;
      }
      var sess := sessions[id];
      if sess.expiresAt.None? || now >= sess.expiresAt.value {
        sessions := sessions - {id};
        return;
      }
      var left := sess.expiresAt.value - now;
      if left < SECOND {
        sessions := sessions - {id};
        return;
      }
      sessions := sessions[id := sess.(lastAccessed := now)];
      return Found(sessions[id]), left;
    }

    /** The login page's session: the request's own if it can still be reused. */
    method CreateOrReuse(cookie: Option<string>, now: int, newId: string, later: int) returns (sess: Session)
      modifies this
      ensures !sess.admin
      ensures var reuse := if cookie.Some? && cookie.value != "" then [ReusePreAuth(cookie.value, now)] else [];
        var s := After(Cfg(), old(sessions), reuse);
        if reuse != [] && Answer(Cfg(), old(sessions), reuse[0]).Found?
        then sessions == s && Found(sess) == Answer(Cfg(), old(sessions), reuse[0])
        else sessions == Next(Cfg(), s, CreatePreAuth(newId, later)) && sess == PreAuthSession(Cfg(), later)
    {
      if cookie.Some? && cookie.value != "" {
        var result, _ := ReusableLoginSession(cookie.value, now);
        if result.Found? {
          return result.session;
        }
      }
      sess := CreateLoginSession(newId, later);
    }

    method Lookup(id: string, now: int) returns (result: Result)
      modifies this
      ensures sessions == Next(Cfg(), old(sessions), Get(id, now))
      ensures result == Answer(Cfg(), old(sessions), Get(id, now))
    {
      result := Nothing;
      if id !in sessions {
        return;
      }
      var sess := sessions[id];
      if sess.expiresAt.Some? && now > sess.expiresAt.value {
        sessions := sessions - {id};
        return;
      }
      if sess.admin && idleTimeout > 0 && now - sess.lastAccessed > idleTimeout {
        sessions := sessions - {id};
        return;
      }
      sessions := sessions[id := sess.(lastAccessed := now)];
      return Found(sessions[id]);
    }

    method DeleteById(id: string)
      modifies this
      ensures sessions == Next(Cfg(), old(sessions), Delete(id))
    {
      sessions := sessions - {id};
    }

    method PutFlash(id: string, key: string, value: string)
      modifies this
      ensures sessions == Next(Cfg(), old(sessions), SetFlash(id, key, value))
    {
      if id !in sessions {
        return;
      }
      var sess := sessions[id];
      sessions := sessions[id := sess.(flash := sess.flash[key := value])];
    }

    method ReadFlash(id: string, key: string) returns (text: string)
      ensures Text(text) == Answer(Cfg(), sessions, PeekFlash(id, key))
    {
      if id !in sessions || key !in sessions[id].flash {
        return "";
      }
      return sessions[id].flash[key];
    }

    method TakeFlash(id: string, key: string) returns (text: string)
      modifies this
      ensures sessions == Next(Cfg(), old(sessions), GetFlash(id, key))
      ensures Text(text) == Answer(Cfg(), old(sessions), GetFlash(id, key))
    {
      if id !in sessions || key !in sessions[id].flash {
        assert id in sessions ==> sessions[id].flash - {key} == sessions[id].flash;
        return "";
      }
      var sess := sessions[id];
      text := sess.flash[key];
      sessions := sessions[id := sess.(flash := sess.flash - {key})];
    }

    method CleanupExpired(now: int)
      modifies this
      ensures sessions == Next(Cfg(), old(sessions), Cleanup(now))
    {
      ghost var before := sessions;
      var left := sessions.Keys;
      while left != {}
        invariant left <= before.Keys && sessions.Keys <= before.Keys
        invariant forall id :: id in sessions ==> sessions[id] == before[id]
        invariant forall id :: id in before ==> (id in sessions <==> id in left || !Dead(Cfg(), before[id], now))
        decreases |left|
      {
        var id :| id in left;
        left := left - {id};
        var sess := sessions[id];
        if sess.expiresAt.Some? && now > sess.expiresAt.value {
          sessions := sessions - {id};
        } else if sess.admin && idleTimeout > 0 && now - sess.lastAccessed > idleTimeout {
          sessions := sessions - {id};
        }
      }
    }
  }
}
