/**
  The command tracker of the batch reader: which words of a logical line stand
  in command position, and where a `(` opens a block.  It sees each token as a
  `Shape`, the outcome of the reader's string comparisons.
 */
module CommandTracking {
  import opened Basics

  // ----- What the tracker sees of a token -----

  datatype Sep = NoSep | Amp | Pipe | Open | Close | OtherSep

  /** A word as a command name: a wrapper such as `call`, a lone `@`, the batch
      keywords `for` and `if`, or anything else. */
  datatype Verb = Wrapper | EchoOff | For | If | Other

  /** A raw word as part of an `if` condition. */
  datatype Part = CaseFlag | Negation | OneOperand | CompareOp | Equals(tail: bool) | Plain

  datatype Shape = Shape(sep: Sep, verb: Verb, isDo: bool, isElse: bool, part: Part) {
    predicate IsSeparator() { !sep.NoSep? }
  }

  /** A word among the first `n` tokens. */
  predicate IsWord(line: seq<Shape>, n: nat, k: nat)
    requires n <= |line|
  {
    k < n && !line[k].IsSeparator()
  }

  /** A `do` or `else` written directly after a closing block parenthesis. */
  predicate AfterParen(line: seq<Shape>, i: nat) {
    0 < i <= |line| && line[i - 1].sep.Close?
  }

  // ----- The condition of a batch `if` -----

  /** The part of the condition that is read next. */
  datatype Stage = Flag | Not | FirstPart | Operator | LastOperand

  function Rank(stage: Stage): nat {
    match stage case Flag => 4 case Not => 3 case FirstPart => 2 case Operator => 1 case LastOperand => 0
  }

  /** The end of the condition whose next part starts at `j`, read from the
      first `n` tokens only, and whether it has all its words. */
  function IfScan(line: seq<Shape>, n: nat, j: nat, stage: Stage): (nat, bool)
    requires n <= |line|
    decreases Rank(stage), |line|, n, j
  {
    match stage
    case Flag => IfScan(line, n, if IsWord(line, n, j) && line[j].part.CaseFlag? then j + 1 else j, Not)
    case Not => IfScan(line, n, if IsWord(line, n, j) && line[j].part.Negation? then j + 1 else j, FirstPart)
    case FirstPart =>
      if !IsWord(line, n, j) then (j, false)
      else (match line[j].part
            case Equals(tail) => if tail then (j + 1, true) else IfScan(line, n, j + 1, LastOperand)
            case OneOperand => IfScan(line, n, j + 1, LastOperand)
            case _ => IfScan(line, n, j + 1, Operator))
    case Operator =>
      if !IsWord(line, n, j) then (j, false)
      else (match line[j].part
            case Equals(tail) => if tail then (j + 1, true) else IfScan(line, n, j + 1, LastOperand)
            case CompareOp => IfScan(line, n, j + 1, LastOperand)
            case _ => (j, true))
    case LastOperand => if IsWord(line, n, j) then (j + 1, true) else (j, false)
  }

  /** The index of the command that the `if` at `i` runs, judged by the first
      `n` tokens, and whether the condition before it is complete. */
  function IfCommandStart(line: seq<Shape>, n: nat, i: nat): (nat, bool)
    requires n <= |line|
  {
    IfScan(line, n, i + 1, Flag)
  }

  // ----- The tracker -----

  datatype Tracker = Tracker(
    batch: bool,
    command: bool,
    forHeader: bool,
    forSet: bool,
    ifStart: Option<nat>,
    ifComplete: bool)
  {
    /** Whether a `(` that starts a word right here opens a block. */
    predicate OpensBlock() {
      if forHeader then !forSet
      else if ifStart.Some? then ifComplete
      else command
    }

    predicate ReadsIfCondition() { ifStart.Some? && !ifComplete }
  }

  function NewTracker(batch: bool): Tracker { Tracker(batch, true, false, false, None, false) }

  /** A word outside `for` headers and `if` conditions. */
  function ConsumeWord(c: Tracker, line: seq<Shape>, i: nat): (Tracker, bool)
    requires i < |line|
  {
    var word := line[i];
    if !c.command || word.verb.Wrapper? then (c, false)
    else if c.batch && (word.verb.EchoOff? || (AfterParen(line, i) && (word.isDo || word.isElse))) then (c, false)
    else if c.batch && word.verb.For? then (c.(forHeader := true, forSet := false), false)
    else if c.batch && word.verb.If? then (c.(ifStart := Some(i), ifComplete := false), false)
    else (c.(command := false), true)
  }

  /** Consumes `line[i]` and reports whether it is a word in command position. */
  function Consume(c: Tracker, line: seq<Shape>, i: nat): (Tracker, bool)
    requires i < |line|
  {
    var token := line[i];
    if c.forHeader then
      if token.sep.Amp? || token.sep.Pipe? || (!token.IsSeparator() && token.isDo && AfterParen(line, i))
      then (c.(forHeader := false, command := true), false)
      else if token.sep.Open? then (c.(forSet := true), false)
      else (c, false)
    else if token.IsSeparator() then (c.(command := true, ifStart := None, ifComplete := false), false)
    else if c.ifStart.Some? then
      var (end, complete) := IfCommandStart(line, i + 1, c.ifStart.value);
      if end > i then (c.(ifComplete := complete), false)
      else ConsumeWord(c.(ifStart := None, ifComplete := false), line, i)
    else ConsumeWord(c, line, i)
  }

  /** The tracker after it has consumed the first `n` tokens one by one. */
  function Track(batch: bool, line: seq<Shape>, n: nat): Tracker
    requires n <= |line|
  {
    if n == 0 then NewTracker(batch) else Consume(Track(batch, line, n - 1), line, n - 1).0
  }

  /** Whether the full run finds a command word at `i`. */
  predicate IsCommandWord(batch: bool, line: seq<Shape>, i: nat)
    requires i < |line|
  {
    Consume(Track(batch, line, i), line, i).1
  }

  /** The tracker as the source keeps it, a record updated by every token. */
  class CommandTracker {
    var batch: bool
    var command: bool
    var forHeader: bool
    var forSet: bool
    var ifStart: Option<nat>
    var ifComplete: bool

    function View(): Tracker
      reads this
    {
      Tracker(batch, command, forHeader, forSet, ifStart, ifComplete)
    }

    constructor (batch: bool)
      ensures View() == NewTracker(batch)
    {
      this.batch, command, forHeader, forSet, ifStart, ifComplete := batch, true, false, false, None, false;
    }

    method Next(line: seq<Shape>, i: nat) returns (isCommand: bool)
      requires i < |line|
      modifies this
      ensures (View(), isCommand) == Consume(old(View()), line, i)
    {
      var token := line[i];
      if forHeader {
        if token.sep.Amp? || token.sep.Pipe? || (!token.IsSeparator() && token.isDo && AfterParen(line, i)) {
          forHeader := false;
          command := true;
        } else if token.sep.Open? {
          forSet := true;
        }
        return false;
      }
      if token.IsSeparator() {
        command := true;
        ifStart, ifComplete := None, false;
        return false;
      }
      if ifStart.Some? {
        var (end, complete) := IfCommandStart(line, i + 1, ifStart.value);
        if end > i {
          ifComplete := complete;
          return false;
        }
        ifStart, ifComplete := None, false;
      }
      if !command || token.verb.Wrapper? {
        return false;
      }
      if batch {
        if token.verb.EchoOff? || (AfterParen(line, i) && (token.isDo || token.isElse)) {
          return false;
        } else if token.verb.For? {
          forHeader, forSet := true, false;
          return false;
        } else if token.verb.If? {
          ifStart, ifComplete := Some(i), false;
          return false;
        }
      }
      command := false;
      return true;
    }
  }

  // ----- The tracker reads only a prefix -----

  /** Once a condition is complete, its end is the same in every longer line. */
  lemma {:induction false} IfScanStable(line: seq<Shape>, n: nat, more: seq<Shape>, m: nat, j: nat, stage: Stage)
    requires n <= |line| && n <= m <= |more|
    requires forall k :: 0 <= k < n ==> more[k] == line[k]
    ensures IfScan(line, n, j, stage).1 || n == m ==> IfScan(more, m, j, stage) == IfScan(line, n, j, stage)
    ensures j <= n ==> j <= IfScan(line, n, j, stage).0 <= n
    decreases Rank(stage)
  {
    match stage
    case Flag => IfScanStable(line, n, more, m, if IsWord(line, n, j) && line[j].part.CaseFlag? then j + 1 else j, Not);
    case Not => IfScanStable(line, n, more, m, if IsWord(line, n, j) && line[j].part.Negation? then j + 1 else j, FirstPart);
    case FirstPart =>
      IfScanStable(line, n, more, m, j + 1, LastOperand);
      IfScanStable(line, n, more, m, j + 1, Operator);
    case Operator => IfScanStable(line, n, more, m, j + 1, LastOperand);
    case LastOperand =>
  }

  lemma ConsumePrefix(c: Tracker, line: seq<Shape>, more: seq<Shape>, i: nat)
    requires i < |line| <= |more| && forall k :: 0 <= k < |line| ==> more[k] == line[k]
    ensures Consume(c, more, i) == Consume(c, line, i)
  {
    if c.ifStart.Some? {
      IfScanStable(line, i + 1, more, i + 1, c.ifStart.value + 1, Flag);
    }
  }

  lemma {:induction false} TrackPrefix(batch: bool, line: seq<Shape>, more: seq<Shape>, n: nat)
    requires n <= |line| <= |more| && forall k :: 0 <= k < |line| ==> more[k] == line[k]
    ensures Track(batch, more, n) == Track(batch, line, n)
  {
    hide Consume;
    if n > 0 {
      TrackPrefix(batch, line, more, n - 1);
      ConsumePrefix(Track(batch, line, n - 1), line, more, n - 1);
    }
  }

  // ----- What holds in every tracker state -----

  /** In every state with an open `if` the cached flag equals a recomputation on
      the tokens consumed so far, whose condition ends exactly there. */
  predicate TrackerOk(c: Tracker, line: seq<Shape>, n: nat)
    requires n <= |line|
  {
    && (c.forHeader ==> c.ifStart.None?)
    && (c.ifStart.Some? ==>
          && c.ifStart.value < n && c.command
          && IfCommandStart(line, n, c.ifStart.value) == (n, c.ifComplete))
    && (c.ifStart.None? ==> !c.ifComplete)
    && (!c.forHeader && AfterParen(line, n) ==> c.command && c.ifStart.None?)
  }

  lemma IfScanEnd(line: seq<Shape>, n: nat, j: nat, stage: Stage)
    requires n <= |line| && j >= n
    ensures IfScan(line, n, j, stage) == (j, false)
    decreases Rank(stage)
  {
    match stage
    case Flag => IfScanEnd(line, n, j, Not);
    case Not => IfScanEnd(line, n, j, FirstPart);
    case _ =>
  }

  lemma ConsumeOk(c: Tracker, line: seq<Shape>, i: nat)
    requires i < |line| && TrackerOk(c, line, i)
    ensures TrackerOk(Consume(c, line, i).0, line, i + 1)
    ensures Consume(c, line, i).0.batch == c.batch
  {
    IfScanEnd(line, i + 1, i + 1, Flag);
    if c.ifStart.Some? {
      IfScanStable(line, i + 1, line, i + 1, c.ifStart.value + 1, Flag);
    }
  }

  lemma {:induction false} TrackOk(batch: bool, line: seq<Shape>, n: nat)
    requires n <= |line|
    ensures TrackerOk(Track(batch, line, n), line, n)
    ensures Track(batch, line, n).batch == batch
  {
    if n > 0 {
      hide Consume, TrackerOk;
      TrackOk(batch, line, n - 1);
      ConsumeOk(Track(batch, line, n - 1), line, n - 1);
      assert Track(batch, line, n) == Consume(Track(batch, line, n - 1), line, n - 1).0;
    }
  }

  /** The cached completeness of an open `if` is what the scan of the consumed
      tokens yields, and once complete its end stays put whatever follows. */
  lemma IfCacheExact(batch: bool, line: seq<Shape>, n: nat, more: seq<Shape>)
    requires n <= |line| && n <= |more| && forall k :: 0 <= k < n ==> more[k] == line[k]
    ensures var c := Track(batch, line, n);
      c.ifStart.Some? ==>
        && IfCommandStart(line, n, c.ifStart.value) == (n, c.ifComplete)
        && (c.ifComplete ==> IfCommandStart(more, |more|, c.ifStart.value) == (n, true))
  {
    TrackOk(batch, line, n);
    var c := Track(batch, line, n);
    if c.ifStart.Some? {
      IfScanStable(line, n, more, |more|, c.ifStart.value + 1, Flag);
    }
  }

  /** `c` is the tracker that has consumed exactly the first `i` tokens.  The
      quantifier keeps the whole run out of proofs that do not ask for it. */
  ghost predicate TrackedTo(c: Tracker, batch: bool, line: seq<Shape>, i: nat)
    requires i <= |line|
  {
    forall n :: n == i ==> c == Track(batch, line, n)
  }

  lemma TrackedStart(batch: bool, line: seq<Shape>)
    ensures TrackedTo(NewTracker(batch), batch, line, 0)
  {
  }

  lemma TrackedStep(c: Tracker, batch: bool, line: seq<Shape>, i: nat)
    requires i < |line| && TrackedTo(c, batch, line, i)
    ensures TrackedTo(Consume(c, line, i).0, batch, line, i + 1)
    ensures IsCommandWord(batch, line, i) == Consume(c, line, i).1
  {
  }

  /** Where a block opens, it also opens after an `@`, and it opens after a `do`
      or `else` that follows a closing parenthesis and after any word of a `for`
      header that has no set yet. */
  lemma OpensAfterSplit(c: Tracker, line: seq<Shape>, n: nat)
    requires n < |line| && TrackerOk(c, line, n) && c.batch && !line[n].IsSeparator()
    requires
      || (line[n].verb.EchoOff? && c.OpensBlock())
      || (line[n].isDo && AfterParen(line, n))
      || (line[n].isElse && AfterParen(line, n) && !c.forHeader)
      || (c.forHeader && !c.forSet)
    ensures Consume(c, line, n).0.OpensBlock()
  {
    if c.ifStart.Some? && c.ifComplete {
      IfScanStable(line, n, line, n + 1, c.ifStart.value + 1, Flag);
    }
  }

  /** Conversely, outside an unfinished condition a block opens behind these words
      only there; in a header, behind a `do` that does not follow its set, it does not. */
  lemma OpensOnlyAfterSplit(c: Tracker, line: seq<Shape>, n: nat)
    requires n < |line| && TrackerOk(c, line, n) && c.batch && !line[n].IsSeparator() && !c.ReadsIfCondition()
    requires Consume(c, line, n).0.OpensBlock()
    ensures line[n].verb.EchoOff? && !line[n].isDo && !line[n].isElse ==> c.OpensBlock()
    ensures line[n].verb.Other? && line[n].isDo && !c.forHeader ==> AfterParen(line, n)
    ensures line[n].verb.Other? && line[n].isElse && !c.forHeader ==> AfterParen(line, n)
    ensures line[n].verb.Other? && !line[n].isDo && !line[n].isElse ==> c.forHeader && !c.forSet
  {
    if c.ifStart.Some? && c.ifComplete {
      IfScanStable(line, n, line, n + 1, c.ifStart.value + 1, Flag);
    }
  }

  /** Reading the arguments of a command. */
  predicate Idle(c: Tracker) { !c.command && !c.forHeader && c.ifStart.None? }

  lemma CommandWordIdles(c: Tracker, line: seq<Shape>, i: nat)
    requires i < |line|
    ensures Consume(c, line, i).1 ==> Idle(Consume(c, line, i).0) && !line[i].IsSeparator()
    ensures Idle(c) && !line[i].IsSeparator() ==> Consume(c, line, i) == (c, false)
  {
  }

  /** After a command word the tracker does not move until the next separator,
      so a parser may skip the words in between. */
  lemma {:induction false} SkipWords(batch: bool, line: seq<Shape>, i: nat, j: nat)
    requires i < j <= |line| && Idle(Track(batch, line, i))
    requires forall k :: i <= k < j ==> !line[k].IsSeparator()
    ensures Track(batch, line, j) == Track(batch, line, i)
    ensures forall k :: i <= k < j ==> !IsCommandWord(batch, line, k)
    decreases j
  {
    if j > i + 1 {
      SkipWords(batch, line, i, j - 1);
    }
    CommandWordIdles(Track(batch, line, i), line, j - 1);
  }

  lemma TrackedSkip(c: Tracker, batch: bool, line: seq<Shape>, i: nat, j: nat)
    requires i <= j <= |line| && TrackedTo(c, batch, line, i) && Idle(c)
    requires forall k :: i <= k < j ==> !line[k].IsSeparator()
    ensures TrackedTo(c, batch, line, j)
    ensures forall k :: i <= k < j ==> !IsCommandWord(batch, line, k)
  {
    if i < j { SkipWords(batch, line, i, j); }
  }
}
