/**
  The registry request throttle: a mutex-guarded slot time that spaces every
  outbound request.  Waiters hold the mutex while they sleep, so the waits of
  any number of goroutines form one sequence of turns.
 */
module RegistryThrottle {
  import opened Basics

  /** What one wait observes: the clock when it holds the mutex, whether its
      sleep ends by itself rather than by cancellation, and the clock after. */
  datatype Turn = Turn(arrival: int, awake: bool, resumed: int)

  /** The spacing and the time of the last request let through, if any. */
  datatype Pace = Pace(interval: int, last: Option<int>)

  function Delay(p: Pace, now: int): int {
    if p.last.Some? then p.last.value + p.interval - now else 0
  }

  /** When the turn lets its request through, if it does. */
  function Grant(p: Pace, turn: Turn): Option<int> {
    if p.interval <= 0 || Delay(p, turn.arrival) <= 0 then Some(turn.arrival)
    else if turn.awake then Some(turn.resumed)
    else None
  }

  function Next(p: Pace, turn: Turn): Pace {
    if p.interval > 0 && Grant(p, turn).Some? then p.(last := Grant(p, turn)) else p
  }

  class Throttle {
    const interval: int
    var last: Option<int>

    constructor (interval: int)
      ensures this.interval == interval && last == None
    {
      this.interval := interval;
      last := None;
    }

    function View(): Pace
      reads this
    {
      Pace(interval, last)
    }

    method Wait(turn: Turn) returns (ok: bool)
      modifies this
      ensures ok <==> Grant(old(View()), turn).Some?
      ensures View() == Next(old(View()), turn)
    {
      if interval <= 0 {
        return true;
      }
      var now := turn.arrival;
      if last.Some? {
        var wait := last.value + interval - now;
        if wait > 0 {
          if !turn.awake {
            return false;
          }
          now := turn.resumed;
        }
      }
      last := Some(now);
      return true;
    }
  }

  // ----- Whole schedules -----

  function After(p: Pace, turns: seq<Turn>): Pace
    decreases |turns|
  {
    if turns == [] then p else After(Next(p, turns[0]), turns[1..])
  }

  /** The times at which requests leave. */
  function Grants(p: Pace, turns: seq<Turn>): seq<int>
    decreases |turns|
  {
    if turns == [] then []
    else OptionSeq(Grant(p, turns[0])) + Grants(Next(p, turns[0]), turns[1..])
  }

  /** A sleep that ends by itself took at least the time asked for.  Nothing is
      assumed about the clock between turns: it may even jump backwards. */
  ghost predicate SleepsSuffice(p: Pace, turns: seq<Turn>)
    decreases |turns|
  {
    turns == [] ||
    (&& var t := turns[0];
     (t.awake && Delay(p, t.arrival) > 0 ==> t.resumed >= t.arrival + Delay(p, t.arrival))
     && SleepsSuffice(Next(p, turns[0]), turns[1..]))
  }

  /** Without a positive interval nothing waits: every request leaves on arrival, and
      the throttle keeps no time. */
  lemma {:induction false} Unthrottled(p: Pace, turns: seq<Turn>)
    requires p.interval <= 0
    ensures |Grants(p, turns)| == |turns| && forall i :: 0 <= i < |turns| ==> Grants(p, turns)[i] == turns[i].arrival
    ensures After(p, turns) == p
    decreases |turns|
  {
    if turns != [] {
      Unthrottled(p, turns[1..]);
    }
  }

  /** Every grant keeps its distance from the one before it. */
  lemma {:induction false} GrantsSpaced(p: Pace, turns: seq<Turn>)
    requires p.interval > 0 && SleepsSuffice(p, turns)
    ensures var g := Grants(p, turns);
      && (p.last.Some? && |g| > 0 ==> g[0] >= p.last.value + p.interval)
      && forall i :: 0 < i < |g| ==> g[i] >= g[i - 1] + p.interval
    decreases |turns|
  {
    if turns != [] {
      var next := Next(p, turns[0]);
      GrantsSpaced(next, turns[1..]);
      var g, rest := Grants(p, turns), Grants(next, turns[1..]);
      if Grant(p, turns[0]).Some? {
        forall i | 0 < i < |g| ensures g[i] >= g[i - 1] + p.interval {
          assert g[i] == rest[i - 1] && (i > 1 ==> g[i - 1] == rest[i - 2]);
        }
      } else {
        assert g == rest;
      }
    }
  }

  lemma {:induction false} SpacingAdds(g: seq<int>, interval: int, i: nat, j: nat)
    requires i <= j < |g| && forall k :: 0 < k < |g| ==> g[k] >= g[k - 1] + interval
    ensures g[j] - g[i] >= (j - i) * interval
    decreases j
  {
    if i < j {
      SpacingAdds(g, interval, i, j - 1);
    }
  }

  /** Any window of `span` time units lets at most span / interval + 1 requests
      through, however many goroutines queue and whichever of them give up. */
  lemma WindowBound(p: Pace, turns: seq<Turn>, i: nat, j: nat, span: nat)
    requires p.interval > 0 && SleepsSuffice(p, turns)
    requires i <= j < |Grants(p, turns)| && Grants(p, turns)[j] - Grants(p, turns)[i] <= span
    ensures Grants(p, turns)[j] - Grants(p, turns)[i] >= (j - i) * p.interval
    ensures j - i + 1 <= span / p.interval + 1
  {
    GrantsSpaced(p, turns);
    SpacingAdds(Grants(p, turns), p.interval, i, j);
    QuotientBound(j - i, p.interval, span);
  }

  lemma MultiplyOrder(a: nat, b: nat, d: int)
    requires a <= b && d > 0
    ensures a * d <= b * d
  {
  }

  lemma QuotientBound(n: nat, d: int, span: nat)
    requires d > 0 && n * d <= span
    ensures n <= span / d
  {
    var q := span / d;
    assert span < q * d + d;
    if n > q {
      MultiplyOrder(q + 1, n, d);
    }
  }

  /** The turns that were not abandoned. */
  ghost function Kept(p: Pace, turns: seq<Turn>): seq<Turn>
    decreases |turns|
  {
    if turns == [] then []
    else (if Grant(p, turns[0]).Some? then [turns[0]] else []) + Kept(Next(p, turns[0]), turns[1..])
  }

  /** Abandoned waits leave no trace: the same requests leave at the same times
      as if only the others had queued. */
  lemma {:induction false} AbandonedWaitsVanish(p: Pace, turns: seq<Turn>)
    ensures Grants(p, turns) == Grants(p, Kept(p, turns)) && |Grants(p, turns)| == |Kept(p, turns)|
    ensures After(p, turns) == After(p, Kept(p, turns))
    decreases |turns|
  {
    if turns != [] {
      var rest := Kept(Next(p, turns[0]), turns[1..]);
      AbandonedWaitsVanish(Next(p, turns[0]), turns[1..]);
      if Grant(p, turns[0]).Some? {
        assert ([turns[0]] + rest)[1..] == rest;
      } else {
        assert Kept(p, turns) == rest;
      }
    }
  }

  /** Sleeps that nobody cancels and that take exactly the time asked for. */
  ghost predicate SleepsExactly(p: Pace, turns: seq<Turn>)
    decreases |turns|
  {
    turns == [] ||
    (&& turns[0].awake && turns[0].resumed == turns[0].arrival + Delay(p, turns[0].arrival)
     && SleepsExactly(Next(p, turns[0]), turns[1..]))
  }

  /** No spaced schedule is faster: if `plan` serves the same arrivals with the
      same spacing, every request leaves no later than it would under `plan`. */
  lemma {:induction false} EarliestSchedule(p: Pace, turns: seq<Turn>, plan: seq<int>)
    requires p.interval > 0 && SleepsExactly(p, turns) && |plan| == |turns|
    requires forall i :: 0 <= i < |plan| ==> plan[i] >= turns[i].arrival
    requires forall i :: 0 < i < |plan| ==> plan[i] >= plan[i - 1] + p.interval
    requires p.last.Some? && |plan| > 0 ==> plan[0] >= p.last.value + p.interval
    ensures |Grants(p, turns)| == |plan| && forall i :: 0 <= i < |plan| ==> Grants(p, turns)[i] <= plan[i]
    decreases |turns|
  {
    if turns != [] {
      EarliestSchedule(Next(p, turns[0]), turns[1..], plan[1..]);
    }
  }
}
