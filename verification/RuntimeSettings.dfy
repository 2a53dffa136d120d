/**
  The live server settings and the commit slot that orders overlapping admin
  saves: each save writes its database row and publishes its values before
  another one may write.
 */
module RuntimeSettings {
  import opened Basics

  const DEFAULT_RETENTION := 30 * 24 * 60 * 60 * 1_000_000_000

  /** One save's values, and also the live settings. */
  datatype Settings = Settings(
    blockThreshold: string, perMinute: int, burst: int, scanLog: int, adminAudit: int)

  /** No field that a publication would ignore. */
  predicate Full(v: Settings) {
    v.blockThreshold != "" && v.perMinute > 0 && v.burst > 0 && v.scanLog >= 0 && v.adminAudit >= 0
  }

  function Merge(live: Settings, v: Settings): Settings {
    Settings(
      if v.blockThreshold != "" then v.blockThreshold else live.blockThreshold,
      if v.perMinute > 0 then v.perMinute else live.perMinute,
      if v.burst > 0 then v.burst else live.burst,
      if v.scanLog >= 0 then v.scanLog else live.scanLog,
      if v.adminAudit >= 0 then v.adminAudit else live.adminAudit)
  }

  datatype Result = Ok | CommitFailed | GaveUp

  class Live {
    var blockThreshold: string
    var perMinute: int
    var burst: int
    var scanLog: int
    var adminAudit: int

    function View(): Settings
      reads this
    {
      Settings(blockThreshold, perMinute, burst, scanLog, adminAudit)
    }

    /** Seeded from the startup configuration, which may leave fields unset. */
    constructor (cfg: Settings)
      ensures View() == Merge(Settings("CRITICAL", 60, 60, DEFAULT_RETENTION, DEFAULT_RETENTION), cfg)
      ensures Full(View())
    {
      blockThreshold, perMinute, burst := "CRITICAL", 60, 60;
      if cfg.blockThreshold != "" {
        blockThreshold := cfg.blockThreshold;
      }
      if cfg.perMinute > 0 {
        perMinute := cfg.perMinute;
      }
      if cfg.burst > 0 {
        burst := cfg.burst;
      }
      scanLog, adminAudit := DEFAULT_RETENTION, DEFAULT_RETENTION;
      new;
      UpdateRetention(cfg.scanLog, cfg.adminAudit);
    }

    method UpdateRetention(scan: int, audit: int)
      modifies this
      ensures View() == Merge(old(View()), Settings("", 0, 0, scan, audit))
    {
      if scan >= 0 {
        scanLog := scan;
      }
      if audit >= 0 {
        adminAudit := audit;
      }
    }

    method Update(threshold: string, rate: int, size: int)
      modifies this
      ensures View() == Merge(old(View()), Settings(threshold, rate, size, -1, -1))
    {
      if threshold != "" {
        blockThreshold := threshold;
      }
      if rate > 0 {
        perMinute := rate;
      }
      if size > 0 {
        burst := size;
      }
    }

    /** What follows once the slot is held, or the wait for it was given up. */
    method CommitAndPublish(v: Settings, slotHeld: bool, commitOk: bool) returns (result: Result)
      modifies this
      ensures View() == if slotHeld && commitOk then Merge(old(View()), v) else old(View())
      ensures result == if !slotHeld then GaveUp else if commitOk then Ok else CommitFailed
    {
      if !slotHeld {
        return GaveUp;
      }
      if !commitOk {
        return CommitFailed;
      }
      Update(v.blockThreshold, v.perMinute, v.burst);
      UpdateRetention(v.scanLog, v.adminAudit);
      return Ok;
    }
  }

  // ----- Overlapping saves -----

  datatype Phase = Waiting | Committing | Publishing | Releasing(result: Result) | Returned(result: Result)

  datatype Save = Save(values: Settings, cancelled: bool, phase: Phase)

  /** `committed` and `published` list the saves in the order of their database
      writes and of their publications. */
  datatype State = State(
    live: Settings, slot: Option<nat>, saves: seq<Save>, committed: seq<nat>, published: seq<nat>)

  datatype Step =
    | Acquire(i: nat)
    | Cancel(i: nat)
    | GiveUp(i: nat)
    | CommitOk(i: nat)
    | CommitFail(i: nat)
    | Publish(i: nat)
    | Release(i: nat)

  predicate Enabled(s: State, step: Step) {
    && step.i < |s.saves|
    && var save := s.saves[step.i];
    match step
    case Acquire(_) => save.phase.Waiting? && s.slot.None?
    case Cancel(_) => true
    case GiveUp(_) => save.phase.Waiting? && save.cancelled
    case CommitOk(_) => save.phase.Committing?
    case CommitFail(_) => save.phase.Committing?
    case Publish(_) => save.phase.Publishing?
    case Release(_) => save.phase.Releasing?
  }

  function At(saves: seq<Save>, i: nat, phase: Phase): seq<Save>
    requires i < |saves|
  {
    saves[i := saves[i].(phase := phase)]
  }

  function Apply(s: State, step: Step): State
    requires Enabled(s, step)
  {
    var i := step.i;
    match step
    case Acquire(_) => s.(slot := Some(i), saves := At(s.saves, i, Committing))
    case Cancel(_) => s.(saves := s.saves[i := s.saves[i].(cancelled := true)])
    case GiveUp(_) => s.(saves := At(s.saves, i, Returned(GaveUp)))
    case CommitOk(_) => s.(saves := At(s.saves, i, Publishing), committed := s.committed + [i])
    case CommitFail(_) => s.(saves := At(s.saves, i, Releasing(CommitFailed)))
    case Publish(_) =>
      s.(live := Merge(s.live, s.saves[i].values), saves := At(s.saves, i, Releasing(Ok)),
         published := s.published + [i])
    case Release(_) => s.(slot := None, saves := At(s.saves, i, Returned(s.saves[i].phase.result)))
  }

  /** The settings after publishing the given saves one after the other. */
  function Fold(initial: Settings, saves: seq<Save>, order: seq<nat>): Settings
    requires forall k :: 0 <= k < |order| ==> order[k] < |saves|
  {
    if order == [] then initial
    else Merge(Fold(initial, saves, order[..|order| - 1]), saves[order[|order| - 1]].values)
  }

  predicate Holds(phase: Phase) {
    phase.Committing? || phase.Publishing? || phase.Releasing?
  }

  predicate Committed(phase: Phase) {
    phase.Publishing? || ((phase.Releasing? || phase.Returned?) && phase.result.Ok?)
  }

  predicate InRange(order: seq<nat>, n: nat) {
    forall k :: 0 <= k < |order| ==> order[k] < n
  }

  /** Exactly the slot's owner is inside. */
  predicate SlotOk(s: State) {
    && (s.slot.Some? ==> s.slot.value < |s.saves|)
    && (forall i :: 0 <= i < |s.saves| ==> (Holds(s.saves[i].phase) <==> s.slot == Some(i)))
  }

  /** Each successful save committed once, and at most the owner's own
      publication is outstanding. */
  predicate OrderOk(s: State)
    requires SlotOk(s)
  {
    && InRange(s.committed, |s.saves|) && InRange(s.published, |s.saves|)
    && (s.committed == s.published +
        if s.slot.Some? && s.saves[s.slot.value].phase.Publishing? then [s.slot.value] else [])
    && (forall i :: 0 <= i < |s.saves| ==> (Committed(s.saves[i].phase) <==> i in s.committed))
    && (forall j, k :: 0 <= j < k < |s.committed| ==> s.committed[j] != s.committed[k])
  }

  predicate Inv(initial: Settings, s: State) {
    SlotOk(s) && OrderOk(s) && s.live == Fold(initial, s.saves, s.published)
  }

  /** Only phases and cancellations change, so earlier publications still count. */
  lemma {:induction false} FoldStays(initial: Settings, before: seq<Save>, after: seq<Save>, order: seq<nat>)
    requires |before| == |after| && InRange(order, |before|)
    requires forall i :: 0 <= i < |before| ==> before[i].values == after[i].values
    ensures Fold(initial, before, order) == Fold(initial, after, order)
  {
    if order != [] {
      FoldStays(initial, before, after, order[..|order| - 1]);
    }
  }

  lemma SlotStep(s: State, step: Step)
    requires SlotOk(s) && Enabled(s, step)
    ensures SlotOk(Apply(s, step))
  {
    assert forall j :: 0 <= j < |s.saves| && j != step.i ==> Apply(s, step).saves[j] == s.saves[j];
  }

  lemma OrderStep(s: State, step: Step)
    requires SlotOk(s) && OrderOk(s) && Enabled(s, step) && SlotOk(Apply(s, step))
    ensures OrderOk(Apply(s, step))
  {
    var t := Apply(s, step);
    assert forall j :: 0 <= j < |s.saves| && j != step.i ==> t.saves[j] == s.saves[j];
    assert Holds(s.saves[step.i].phase) ==> s.slot == Some(step.i);
    if step.CommitOk? {
      assert step.i !in s.committed;
    }
  }

  lemma LiveStep(initial: Settings, s: State, step: Step)
    requires InRange(s.published, |s.saves|) && s.live == Fold(initial, s.saves, s.published) && Enabled(s, step)
    ensures var t := Apply(s, step);
      InRange(t.published, |t.saves|) && t.live == Fold(initial, t.saves, t.published)
  {
    var t := Apply(s, step);
    FoldStays(initial, s.saves, t.saves, s.published);
    if step.Publish? {
      assert t.published[..|s.published|] == s.published;
    }
  }

  lemma StepInv(initial: Settings, s: State, step: Step)
    requires Inv(initial, s) && Enabled(s, step)
    ensures Inv(initial, Apply(s, step))
  {
    SlotStep(s, step);
    OrderStep(s, step);
    LiveStep(initial, s, step);
  }

  // ----- Whole runs -----

  function Start(initial: Settings, values: seq<Settings>): State {
    State(initial, None, seq(|values|, i requires 0 <= i < |values| => Save(values[i], false, Waiting)), [], [])
  }

  ghost predicate IsRun(s: State, steps: seq<Step>)
    decreases |steps|
  {
    steps == [] || (Enabled(s, steps[0]) && IsRun(Apply(s, steps[0]), steps[1..]))
  }

  ghost function After(s: State, steps: seq<Step>): State
    requires IsRun(s, steps)
    decreases |steps|
  {
    if steps == [] then s else After(Apply(s, steps[0]), steps[1..])
  }

  lemma {:induction false} RunInv(initial: Settings, s: State, steps: seq<Step>)
    requires Inv(initial, s) && IsRun(s, steps)
    ensures Inv(initial, After(s, steps))
    decreases |steps|
  {
    if steps != [] {
      StepInv(initial, s, steps[0]);
      RunInv(initial, Apply(s, steps[0]), steps[1..]);
    }
  }

  lemma {:induction false} FoldFull(initial: Settings, saves: seq<Save>, order: seq<nat>)
    requires Full(initial) && InRange(order, |saves|)
    ensures Full(Fold(initial, saves, order))
  {
    if order != [] {
      FoldFull(initial, saves, order[..|order| - 1]);
    }
  }

  /** Publications happen in commit order and trail it by at most one save; the
      live settings are those of the publications; what failed or gave up neither
      committed nor published; and only a cancelled save gives up. */
  lemma PublishedInCommitOrder(initial: Settings, values: seq<Settings>, steps: seq<Step>)
    requires IsRun(Start(initial, values), steps)
    ensures var s := After(Start(initial, values), steps);
      && InRange(s.published, |s.saves|)
      && s.published <= s.committed && |s.committed| <= |s.published| + 1
      && s.live == Fold(initial, s.saves, s.published)
      && |s.saves| == |values|
      && forall i :: 0 <= i < |s.saves| ==>
           && s.saves[i].values == values[i]
           && (s.saves[i].phase.Returned? ==> (s.saves[i].phase.result.Ok? <==> i in s.committed))
           && (s.saves[i].phase == Returned(GaveUp) ==> Cancel(i) in steps)
  {
    RunInv(initial, Start(initial, values), steps);
    var s := After(Start(initial, values), steps);
    assert forall i :: 0 <= i < |s.saves| ==> (Committed(s.saves[i].phase) <==> i in s.committed);
    SavesKept(Start(initial, values), steps);
    forall i | 0 <= i < |s.saves|
      ensures s.saves[i].values == values[i] && (s.saves[i].phase == Returned(GaveUp) ==> Cancel(i) in steps)
    {
      CancelledExactly(Start(initial, values), steps, i);
    }
  }

  lemma {:induction false} SavesKept(s: State, steps: seq<Step>)
    requires IsRun(s, steps)
    ensures |After(s, steps).saves| == |s.saves|
    decreases |steps|
  {
    if steps != [] {
      SavesKept(Apply(s, steps[0]), steps[1..]);
    }
  }

  /** A save is cancelled exactly if its caller cancelled it, gives up only then, and
      keeps the values it was made with. */
  lemma {:induction false} CancelledExactly(s: State, steps: seq<Step>, i: nat)
    requires IsRun(s, steps) && i < |s.saves|
    ensures var t := After(s, steps);
      && |t.saves| == |s.saves| && t.saves[i].values == s.saves[i].values
      && (t.saves[i].cancelled <==> s.saves[i].cancelled || Cancel(i) in steps)
      && (t.saves[i].phase == Returned(GaveUp) && s.saves[i].phase.Waiting? ==> t.saves[i].cancelled)
      && (s.saves[i].phase.Returned? ==> t.saves[i].phase == s.saves[i].phase)
      && Enabled(t, Cancel(i))
    decreases |steps|
  {
    if steps != [] {
      assert steps == [steps[0]] + steps[1..];
      CancelledExactly(Apply(s, steps[0]), steps[1..], i);
      HeldNeverGivesUp(Apply(s, steps[0]), steps[1..], i);
    }
  }

  predicate WillNotGiveUp(phase: Phase) {
    phase.Committing? || phase.Publishing? || ((phase.Releasing? || phase.Returned?) && !phase.result.GaveUp?)
  }

  lemma {:induction false} HeldNeverGivesUp(s: State, steps: seq<Step>, i: nat)
    requires IsRun(s, steps) && i < |s.saves|
    ensures |After(s, steps).saves| == |s.saves|
    ensures WillNotGiveUp(s.saves[i].phase) ==> WillNotGiveUp(After(s, steps).saves[i].phase)
    decreases |steps|
  {
    if steps != [] {
      HeldNeverGivesUp(Apply(s, steps[0]), steps[1..], i);
    }
  }

  lemma FirstStep(s: State, step: Step, rest: seq<Step>)
    requires Enabled(s, step) && IsRun(Apply(s, step), rest)
    ensures IsRun(s, [step] + rest) && After(s, [step] + rest) == After(Apply(s, step), rest)
  {
    assert ([step] + rest)[1..] == rest;
  }

  /** A waiting save can go through alone once the slot is free, and publishes its
      values. */
  lemma SaveGoesThrough(s: State, i: nat)
    requires i < |s.saves| && s.saves[i].phase.Waiting? && s.slot.None?
    ensures var steps := [Acquire(i)] + ([CommitOk(i)] + ([Publish(i)] + ([Release(i)] + [])));
      && IsRun(s, steps)
      && After(s, steps) == s.(live := Merge(s.live, s.saves[i].values), saves := At(s.saves, i, Returned(Ok)),
                               committed := s.committed + [i], published := s.published + [i])
  {
    var t1 := Apply(s, Acquire(i));
    var t2 := Apply(t1, CommitOk(i));
    var t3 := Apply(t2, Publish(i));
    var t4 := Apply(t3, Release(i));
    assert t4.saves == At(s.saves, i, Returned(Ok));
    FirstStep(t3, Release(i), []);
    hide IsRun, After;
    FirstStep(t2, Publish(i), [Release(i)] + []);
    FirstStep(t1, CommitOk(i), [Publish(i)] + ([Release(i)] + []));
    FirstStep(s, Acquire(i), [CommitOk(i)] + ([Publish(i)] + ([Release(i)] + [])));
  }

  /** Or it can be cancelled and give up, which changes nothing else. */
  lemma SaveGivesUp(s: State, i: nat)
    requires i < |s.saves| && s.saves[i].phase.Waiting?
    ensures var steps := [Cancel(i)] + ([GiveUp(i)] + []);
      && IsRun(s, steps)
      && After(s, steps) == s.(saves := s.saves[i := Save(s.saves[i].values, true, Returned(GaveUp))])
  {
    var t1 := Apply(s, Cancel(i));
    FirstStep(t1, GiveUp(i), []);
    FirstStep(s, Cancel(i), [GiveUp(i)] + []);
  }

  /** Whenever no save holds the slot, the live settings equal the last committed
      row, provided that row has no field a publication ignores; otherwise they
      do not, since the live settings never have such a field. */
  lemma LiveIsLastCommittedRow(initial: Settings, values: seq<Settings>, steps: seq<Step>)
    requires Full(initial) && IsRun(Start(initial, values), steps)
    requires var s := After(Start(initial, values), steps);
      s.slot.None? && s.committed != []
    ensures var s := After(Start(initial, values), steps);
      && var last := s.committed[|s.committed| - 1];
      last < |s.saves| && (s.live == s.saves[last].values <==> Full(s.saves[last].values))
  {
    RunInv(initial, Start(initial, values), steps);
    var s := After(Start(initial, values), steps);
    FoldFull(initial, s.saves, s.published);
  }

  /** Saves never deadlock: while the slot is taken its owner can go on. */
  lemma OwnerCanMove(initial: Settings, values: seq<Settings>, steps: seq<Step>)
    requires IsRun(Start(initial, values), steps)
    ensures var s := After(Start(initial, values), steps);
      s.slot.Some? ==> exists step :: Enabled(s, step) && step.i == s.slot.value && !step.Cancel?
  {
    RunInv(initial, Start(initial, values), steps);
    OwnerMoves(After(Start(initial, values), steps));
  }

  lemma OwnerMoves(s: State)
    requires SlotOk(s)
    ensures s.slot.Some? ==> exists step :: Enabled(s, step) && step.i == s.slot.value && !step.Cancel?
  {
    if s.slot.Some? {
      var i := s.slot.value;
      assert Holds(s.saves[i].phase);
      match s.saves[i].phase
      case Committing => assert Enabled(s, CommitOk(i));
      case Publishing => assert Enabled(s, Publish(i));
      case Releasing(_) => assert Enabled(s, Release(i));
    }
  }
}
