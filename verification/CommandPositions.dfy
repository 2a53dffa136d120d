/**
  What the command tracker computes, said without it: where the condition of a
  batch `if` ends, and which words of a line stand in command position.
 */
module CommandPositions {
  import opened Basics
  import opened CommandTracking

  // ----- Conditions -----

  /** An optional word: it is taken when it is there. */
  predicate Optional(line: seq<Shape>, n: nat, j: nat, next: nat, part: Part)
    requires n <= |line|
  {
    next == if IsWord(line, n, j) && line[j].part == part then j + 1 else j
  }

  predicate IsPart(line: seq<Shape>, n: nat, j: nat, part: Part)
    requires n <= |line|
  {
    IsWord(line, n, j) && line[j].part == part
  }

  /** A word that can only be the left side of a comparison. */
  predicate IsOperand(line: seq<Shape>, n: nat, j: nat)
    requires n <= |line|
  {
    IsWord(line, n, j) && !line[j].part.OneOperand? && !line[j].part.Equals?
  }

  /** The words g..k make up the test of a condition. */
  predicate IsTest(line: seq<Shape>, n: nat, g: nat, k: nat)
    requires n <= |line|
  {
    // exist x, defined x, errorlevel n
    || (k == g + 2 && IsPart(line, n, g, OneOperand) && IsWord(line, n, g + 1))
    // a==b in one, two or three words
    || (k == g + 1 && IsPart(line, n, g, Equals(true)))
    || (k == g + 2 && IsPart(line, n, g, Equals(false)) && IsWord(line, n, g + 1))
    || (k == g + 2 && IsOperand(line, n, g) && IsPart(line, n, g + 1, Equals(true)))
    || (k == g + 3 && IsOperand(line, n, g) && IsPart(line, n, g + 1, Equals(false)) && IsWord(line, n, g + 2))
    // a neq b
    || (k == g + 3 && IsOperand(line, n, g) && IsPart(line, n, g + 1, CompareOp) && IsWord(line, n, g + 2))
    // malformed: a word without an operator behind it counts as the whole test
    || (k == g + 1 && IsOperand(line, n, g) && IsWord(line, n, g + 1)
        && !line[g + 1].part.CompareOp? && !line[g + 1].part.Equals?)
  }

  /** The words behind the `if` at i and before k are `/i`, `not` and a test, the
      first two optional. */
  ghost predicate IsCondition(line: seq<Shape>, n: nat, i: nat, k: nat)
    requires n <= |line|
  {
    exists f: nat, g: nat :: Optional(line, n, i + 1, f, CaseFlag) && Optional(line, n, f, g, Negation) && IsTest(line, n, g, k)
  }

  lemma TestEnds(line: seq<Shape>, n: nat, g: nat, k: nat)
    requires n <= |line|
    ensures IfScan(line, n, g, FirstPart) == (k, true) <==> IsTest(line, n, g, k)
    ensures !IfScan(line, n, g, FirstPart).1 ==> IfScan(line, n, g, FirstPart).0 >= g
  {
    if IsWord(line, n, g) {
      var part := line[g].part;
      if part.OneOperand? || part == Equals(false) {
        LastOperandEnds(line, n, g + 1);
      } else if IsOperand(line, n, g) {
        OperatorEnds(line, n, g + 1);
      }
    }
  }

  lemma LastOperandEnds(line: seq<Shape>, n: nat, j: nat)
    requires n <= |line|
    ensures IfScan(line, n, j, LastOperand) == if IsWord(line, n, j) then (j + 1, true) else (j, false)
  {
  }

  lemma OperatorEnds(line: seq<Shape>, n: nat, j: nat)
    requires n <= |line|
    ensures IfScan(line, n, j, Operator) ==
      if !IsWord(line, n, j) then (j, false)
      else if line[j].part == Equals(true) then (j + 1, true)
      else if line[j].part.Equals? || line[j].part.CompareOp? then
        (if IsWord(line, n, j + 1) then (j + 2, true) else (j + 1, false))
      else (j, true)
  {
    LastOperandEnds(line, n, j + 1);
  }

  /** The scan finds the end of a condition exactly where the grammar says. */
  lemma ConditionEnds(line: seq<Shape>, n: nat, i: nat, k: nat)
    requires n <= |line|
    ensures IfCommandStart(line, n, i) == (k, true) <==> IsCondition(line, n, i, k)
  {
    var f := if IsWord(line, n, i + 1) && line[i + 1].part.CaseFlag? then i + 2 else i + 1;
    var g := if IsWord(line, n, f) && line[f].part.Negation? then f + 1 else f;
    assert Optional(line, n, i + 1, f, CaseFlag) && Optional(line, n, f, g, Negation);
    TestEnds(line, n, g, k);
    assert IfScan(line, n, i + 1, Flag) == IfScan(line, n, f, Not) == IfScan(line, n, g, FirstPart);
  }

  /** A condition without an end has run out of words. */
  lemma UnfinishedRunsOut(line: seq<Shape>, n: nat, i: nat)
    requires n <= |line| && !IfCommandStart(line, n, i).1
    ensures var k := IfCommandStart(line, n, i).0;
      k > i && !IsWord(line, n, k) && forall m :: i < m < k ==> IsWord(line, n, m)
  {
    var f := if IsWord(line, n, i + 1) && line[i + 1].part.CaseFlag? then i + 2 else i + 1;
    var g := if IsWord(line, n, f) && line[f].part.Negation? then f + 1 else f;
    assert IfScan(line, n, i + 1, Flag) == IfScan(line, n, f, Not) == IfScan(line, n, g, FirstPart);
    LastOperandEnds(line, n, g + 1);
    OperatorEnds(line, n, g + 1);
  }

  /** All of a condition is words, also the one behind a malformed test. */
  lemma ConditionIsWords(line: seq<Shape>, n: nat, i: nat, k: nat)
    requires n <= |line| && IsCondition(line, n, i, k)
    ensures i + 1 < k <= n && forall m :: i < m < k ==> IsWord(line, n, m)
  {
  }

  // ----- Command positions -----

  /** A word that leaves a command to come: a wrapper, a lone `@`, or a `do` or `else`
      behind a closing parenthesis. */
  predicate IsTransparent(line: seq<Shape>, i: nat)
    requires i < |line|
  {
    || line[i].verb.Wrapper? || line[i].verb.EchoOff?
    || (AfterParen(line, i) && (line[i].isDo || line[i].isElse))
  }

  predicate Is(line: seq<Shape>, i: nat, verb: Verb) {
    i < |line| && !line[i].IsSeparator() && line[i].verb == verb && !IsTransparent(line, i)
  }

  /** What ends the header of a `for`. */
  predicate EndsHeader(line: seq<Shape>, i: nat)
    requires i < |line|
  {
    || line[i].sep.Amp? || line[i].sep.Pipe?
    || (!line[i].IsSeparator() && line[i].isDo && AfterParen(line, i))
  }

  /** The condition of the `if` at f ends in front of the word m. */
  ghost predicate EndsAt(line: seq<Shape>, f: nat, m: nat) {
    m < |line| && IsCondition(line, m + 1, f, m)
  }

  /** Token i lies in the header of the `for` at f; `starts` are the words where
      commands begin. */
  predicate HeaderFrom(line: seq<Shape>, starts: set<nat>, i: nat, f: nat)
    requires i <= |line|
  {
    && f < i && f in starts && Is(line, f, For)
    && forall m :: f < m < i ==> !EndsHeader(line, m)
  }

  ghost predicate InHeader(line: seq<Shape>, starts: set<nat>, i: nat)
    requires i <= |line|
  {
    exists f: nat :: HeaderFrom(line, starts, i, f)
  }

  /** The condition of the `if` at f is still read at i. */
  ghost predicate ConditionFrom(line: seq<Shape>, starts: set<nat>, i: nat, f: nat)
    requires i <= |line|
  {
    && f < i && f in starts && Is(line, f, If)
    && (forall m :: f < m < i ==> !line[m].IsSeparator())
    && (forall m: nat :: f < m < i ==> !EndsAt(line, f, m))
  }

  /** The tokens before i leave a command to come at i. */
  ghost predicate Leaves(line: seq<Shape>, starts: set<nat>, i: nat)
    requires i <= |line|
  {
    || i == 0
    || (if InHeader(line, starts, i - 1) then EndsHeader(line, i - 1)
        else line[i - 1].IsSeparator() || (i - 1 in starts && IsTransparent(line, i - 1)))
  }

  /** The word i stands where a command begins: the tokens before it leave one to
      come, or it is the first word behind a condition. */
  ghost predicate Begins(line: seq<Shape>, starts: set<nat>, i: nat)
    requires i < |line|
  {
    && !line[i].IsSeparator() && !InHeader(line, starts, i)
    && (Leaves(line, starts, i) || exists f: nat :: ConditionFrom(line, starts, i, f) && EndsAt(line, f, i))
  }

  /** The words of a line where commands begin: each is judged by those before it. */
  ghost predicate AreStarts(line: seq<Shape>, starts: set<nat>) {
    forall i: nat :: i in starts <==> i < |line| && Begins(line, starts, i)
  }

  /** The tracker's fields say just that about the tokens consumed. */
  ghost predicate Reflects(c: Tracker, line: seq<Shape>, starts: set<nat>, i: nat)
    requires i <= |line|
  {
    && (c.forHeader <==> InHeader(line, starts, i))
    && (forall f: nat :: c.ifStart == Some(f) <==> !c.forHeader && ConditionFrom(line, starts, i, f))
    && (!c.forHeader ==> (c.ifStart.None? && c.command <==> Leaves(line, starts, i)))
  }

  /** A condition is judged by its own words and the one behind it. */
  lemma ConditionLocal(line: seq<Shape>, n: nat, m: nat, i: nat, k: nat)
    requires k < m <= |line| && n <= |line| && IsCondition(line, n, i, k)
    ensures IsCondition(line, m, i, k)
  {
    var f: nat, g: nat :| Optional(line, n, i + 1, f, CaseFlag) && Optional(line, n, f, g, Negation) && IsTest(line, n, g, k);
    assert Optional(line, m, i + 1, f, CaseFlag) && Optional(line, m, f, g, Negation) && IsTest(line, m, g, k);
  }

  /** While a condition is read, the next word ends it or is part of it. */
  lemma ConditionNext(line: seq<Shape>, starts: set<nat>, i: nat, f: nat)
    requires i < |line| && !line[i].IsSeparator() && ConditionFrom(line, starts, i, f)
    ensures IfCommandStart(line, i + 1, f).0 > i <==> !EndsAt(line, f, i)
  {
    hide IfScan, IsTest, Optional;
    var (k, complete) := IfCommandStart(line, i + 1, f);
    ConditionEnds(line, i + 1, f, i);
    if !complete {
      UnfinishedRunsOut(line, i + 1, f);
    } else {
      ConditionEnds(line, i + 1, f, k);
      ConditionIsWords(line, i + 1, f, k);
      if k < i {
        LocalEnd(line, i + 1, f, k);
      }
    }
  }

  lemma LocalEnd(line: seq<Shape>, n: nat, f: nat, k: nat)
    requires k < n <= |line| && IsCondition(line, n, f, k)
    ensures EndsAt(line, f, k)
  {
    ConditionLocal(line, n, k + 1, f, k);
  }

  /** Where a command begins, by the tracker's fields. */
  predicate TrackerBegins(c: Tracker, line: seq<Shape>, i: nat)
    requires i < |line|
  {
    && !line[i].IsSeparator() && !c.forHeader
    && (if c.ifStart.Some? then IfCommandStart(line, i + 1, c.ifStart.value).0 <= i else c.command)
  }

  lemma BeginsByTracker(c: Tracker, line: seq<Shape>, starts: set<nat>, i: nat)
    requires i < |line| && Reflects(c, line, starts, i)
    ensures Begins(line, starts, i) <==> TrackerBegins(c, line, i)
  {
    hide EndsAt, ConditionFrom, Leaves, InHeader, IfScan;
    if !c.forHeader && !line[i].IsSeparator() && c.ifStart.Some? {
      assert ConditionFrom(line, starts, i, c.ifStart.value);
      ConditionNext(line, starts, i, c.ifStart.value);
    }
  }

  /** The tracker's next state by cases of the token. */
  lemma ConsumeCases(c: Tracker, line: seq<Shape>, i: nat)
    requires i < |line| && c.batch && TrackerOk(c, line, i)
    ensures var (d, isCommand) := Consume(c, line, i);
      if c.forHeader then
        !isCommand && d.ifStart.None? && (d.forHeader <==> !EndsHeader(line, i)) && (!d.forHeader ==> d.command)
      else if line[i].IsSeparator() then !isCommand && !d.forHeader && d.ifStart.None? && d.command
      else if !TrackerBegins(c, line, i) then
        !isCommand && !d.forHeader && d.ifStart == c.ifStart && (d.ifStart.None? ==> !d.command)
      else if IsTransparent(line, i) then !isCommand && !d.forHeader && d.ifStart.None? && d.command
      else if line[i].verb.For? then !isCommand && d.forHeader && d.ifStart.None?
      else if line[i].verb.If? then !isCommand && !d.forHeader && d.ifStart == Some(i)
      else isCommand && !d.forHeader && d.ifStart.None? && !d.command
  {
    hide IfScan;
  }

  lemma HeaderNext(line: seq<Shape>, starts: set<nat>, i: nat)
    requires i < |line|
    ensures InHeader(line, starts, i + 1) <==>
              (InHeader(line, starts, i) && !EndsHeader(line, i)) || (i in starts && Is(line, i, For))
  {
    if InHeader(line, starts, i) && !EndsHeader(line, i) {
      var f: nat :| HeaderFrom(line, starts, i, f);
      assert HeaderFrom(line, starts, i + 1, f);
    }
    if i in starts && Is(line, i, For) {
      assert HeaderFrom(line, starts, i + 1, i);
    }
    if InHeader(line, starts, i + 1) {
      var f: nat :| HeaderFrom(line, starts, i + 1, f);
      if f < i {
        assert HeaderFrom(line, starts, i, f);
      }
    }
  }

  lemma ConditionGrows(line: seq<Shape>, starts: set<nat>, i: nat, f: nat)
    requires i < |line|
    ensures ConditionFrom(line, starts, i + 1, f) <==>
              || (f == i && i in starts && Is(line, i, If))
              || (f < i && ConditionFrom(line, starts, i, f) && !line[i].IsSeparator() && !EndsAt(line, f, i))
    ensures ConditionFrom(line, starts, i, f) ==> f < i
  {
    hide EndsAt;
  }

  lemma LeavesNext(line: seq<Shape>, starts: set<nat>, i: nat)
    requires i < |line|
    ensures Leaves(line, starts, i + 1) <==>
      if InHeader(line, starts, i) then EndsHeader(line, i)
      else line[i].IsSeparator() || (i in starts && IsTransparent(line, i))
  {
  }

  lemma ConditionBegins(c: Tracker, line: seq<Shape>, starts: set<nat>, i: nat, f: nat)
    requires i < |line| && Reflects(c, line, starts, i) && c.ifStart == Some(f) && !c.forHeader && !line[i].IsSeparator()
    ensures TrackerBegins(c, line, i) <==> EndsAt(line, f, i)
  {
    hide EndsAt, Leaves, InHeader, IfScan;
    assert ConditionFrom(line, starts, i, f);
    ConditionNext(line, starts, i, f);
  }

  lemma ReflectsStep(c: Tracker, line: seq<Shape>, starts: set<nat>, i: nat)
    requires i < |line| && c.batch && TrackerOk(c, line, i) && Reflects(c, line, starts, i)
    requires i in starts <==> TrackerBegins(c, line, i)
    ensures Reflects(Consume(c, line, i).0, line, starts, i + 1)
  {
    hide EndsAt, Leaves, InHeader, ConditionFrom, Consume, TrackerOk, IfScan, TrackerBegins;
    var d := Consume(c, line, i).0;
    ConsumeCases(c, line, i);
    HeaderNext(line, starts, i);
    LeavesNext(line, starts, i);
    BeginsIsWord(c, line, i);
    forall f: nat ensures d.ifStart == Some(f) <==> !d.forHeader && ConditionFrom(line, starts, i + 1, f) {
      ConditionGrows(line, starts, i, f);
      assert c.ifStart == Some(f) <==> !c.forHeader && ConditionFrom(line, starts, i, f);
      if EndsHeader(line, i) {
        HeaderEndClears(line, starts, i, f);
      }
      if c.ifStart == Some(f) && !c.forHeader && !line[i].IsSeparator() {
        ConditionBegins(c, line, starts, i, f);
      }
    }
  }

  /** What ends a header is a separator or stands right behind one. */
  lemma HeaderEndClears(line: seq<Shape>, starts: set<nat>, i: nat, f: nat)
    requires i < |line| && EndsHeader(line, i)
    ensures ConditionFrom(line, starts, i + 1, f) ==> f == i
  {
    hide EndsAt;
  }

  lemma BeginsIsWord(c: Tracker, line: seq<Shape>, i: nat)
    requires i < |line|
    ensures TrackerBegins(c, line, i) ==> !line[i].IsSeparator() && !c.forHeader
  {
  }

  lemma ReflectsStart(line: seq<Shape>, starts: set<nat>)
    ensures Reflects(NewTracker(true), line, starts, 0)
  {
  }

  lemma {:induction false} TrackReflects(line: seq<Shape>, starts: set<nat>, i: nat)
    requires i <= |line| && AreStarts(line, starts)
    ensures Reflects(Track(true, line, i), line, starts, i)
  {
    hide Begins, Consume, TrackerOk, Reflects, TrackerBegins;
    if i == 0 {
      ReflectsStart(line, starts);
    } else {
      var c := Track(true, line, i - 1);
      TrackReflects(line, starts, i - 1);
      TrackOk(true, line, i - 1);
      BeginsByTracker(c, line, starts, i - 1);
      ReflectsStep(c, line, starts, i - 1);
    }
  }

  /** The tracker finds a command word exactly at the words where a command begins
      that are not themselves transparent, `for` or `if`. */
  lemma CommandWordsExactly(line: seq<Shape>, starts: set<nat>, i: nat)
    requires i < |line| && AreStarts(line, starts)
    ensures IsCommandWord(true, line, i) <==>
      i in starts && !IsTransparent(line, i) && !line[i].verb.For? && !line[i].verb.If?
  {
    hide Consume, TrackerOk, Reflects, Begins, TrackerBegins;
    var c := Track(true, line, i);
    TrackReflects(line, starts, i);
    TrackOk(true, line, i);
    BeginsByTracker(c, line, starts, i);
    ConsumeCases(c, line, i);
    BeginsIsWord(c, line, i);
  }

  /** Every line has such a set, and by the above only one. */
  lemma StartsExist(line: seq<Shape>) returns (starts: set<nat>)
    ensures AreStarts(line, starts)
  {
    hide Begins, TrackerBegins, Track, Reflects;
    starts := set i: nat | 0 <= i < |line| && TrackerBegins(Track(true, line, i), line, i);
    forall i: nat | i < |line| ensures i in starts <==> Begins(line, starts, i) {
      TrackerReflects(line, starts, i);
      BeginsByTracker(Track(true, line, i), line, starts, i);
    }
  }

  /** The words at which the tracker finds a command to begin. */
  ghost predicate AreTrackerStarts(line: seq<Shape>, starts: set<nat>) {
    forall k: nat :: k in starts <==> k < |line| && TrackerBegins(Track(true, line, k), line, k)
  }

  lemma TrackerStartAt(line: seq<Shape>, starts: set<nat>, k: nat)
    requires k < |line| && AreTrackerStarts(line, starts)
    ensures k in starts <==> TrackerBegins(Track(true, line, k), line, k)
  {
    hide Track, TrackerBegins;
  }

  lemma {:induction false} TrackerReflects(line: seq<Shape>, starts: set<nat>, i: nat)
    requires i <= |line| && AreTrackerStarts(line, starts)
    ensures Reflects(Track(true, line, i), line, starts, i)
  {
    hide Consume, TrackerOk, Reflects, TrackerBegins, AreTrackerStarts;
    if i == 0 {
      ReflectsStart(line, starts);
    } else {
      TrackerStartAt(line, starts, i - 1);
      TrackerReflects(line, starts, i - 1);
      TrackOk(true, line, i - 1);
      ReflectsStep(Track(true, line, i - 1), line, starts, i - 1);
    }
  }

  // ----- The command of an `if` -----

  /** A condition has one end. */
  lemma OneEnd(line: seq<Shape>, i: nat, m: nat, k: nat)
    requires i < m < k < |line| && IsCondition(line, |line|, i, k)
    ensures !EndsAt(line, i, m)
  {
    hide IfScan;
    if EndsAt(line, i, m) {
      ConditionLocal(line, m + 1, |line|, i, m);
      ConditionEnds(line, |line|, i, m);
      ConditionEnds(line, |line|, i, k);
    }
  }

  lemma {:induction false} InsideCondition(line: seq<Shape>, starts: set<nat>, i: nat, m: nat)
    requires i < m < |line| && AreStarts(line, starts) && ConditionFrom(line, starts, m, i)
    ensures !InHeader(line, starts, m)
    ensures !EndsAt(line, i, m) ==> m !in starts
    decreases m
  {
    hide EndsAt, Begins;
    assert i in starts ==> Begins(line, starts, i);
    StartIsFree(line, starts, i);
    HeaderNext(line, starts, m - 1);
    if m - 1 > i {
      ConditionGrows(line, starts, m - 1, i);
      InsideCondition(line, starts, i, m - 1);
    }
    var c := Track(true, line, m);
    TrackReflects(line, starts, m);
    BeginsByTracker(c, line, starts, m);
    assert c.ifStart == Some(i);
    if !line[m].IsSeparator() {
      ConditionBegins(c, line, starts, m, i);
    } else {
      BeginsIsWord(c, line, m);
    }
  }

  lemma StartIsFree(line: seq<Shape>, starts: set<nat>, i: nat)
    requires AreStarts(line, starts) && i in starts
    ensures i < |line| && !InHeader(line, starts, i)
  {
  }

  /** Of the words of an `if` command whose condition ends in front of k, none before
      k is a command word, and a command begins at k. */
  lemma CommandBehindCondition(line: seq<Shape>, starts: set<nat>, i: nat, k: nat)
    requires AreStarts(line, starts) && i in starts && Is(line, i, If)
    requires k < |line| && !line[k].IsSeparator() && IsCondition(line, |line|, i, k)
    ensures i < k && k in starts && forall m :: i <= m < k ==> !IsCommandWord(true, line, m)
  {
    hide IsCondition, IsCommandWord;
    ConditionIsWords(line, |line|, i, k);
    forall m: nat | i < m < k ensures !EndsAt(line, i, m) && !line[m].IsSeparator() {
      assert IsWord(line, |line|, m);
      OneEnd(line, i, m, k);
    }
    forall m | i <= m < k ensures !IsCommandWord(true, line, m) {
      CommandWordsExactly(line, starts, m);
      if m > i {
        assert ConditionFrom(line, starts, m, i);
        InsideCondition(line, starts, i, m);
      }
    }
    assert ConditionFrom(line, starts, k, i);
    InsideCondition(line, starts, i, k);
    ConditionLocal(line, |line|, k + 1, i, k);
    assert EndsAt(line, i, k) && Begins(line, starts, k);
  }

  // ----- Where blocks open -----

  /** A parenthesis has been opened since f. */
  predicate ParenSince(line: seq<Shape>, f: nat, i: nat)
    requires i <= |line|
  {
    exists m :: f < m < i && line[m].sep.Open?
  }

  lemma ForConsumed(c: Tracker, line: seq<Shape>, i: nat)
    requires i < |line| && c.batch && !c.forHeader && Consume(c, line, i).0.forHeader
    ensures !Consume(c, line, i).0.forSet
  {
    hide IfCommandStart;
  }

  lemma HeaderConsumed(c: Tracker, line: seq<Shape>, i: nat)
    requires i < |line| && c.forHeader && Consume(c, line, i).0.forHeader
    ensures Consume(c, line, i).0.forSet <==> c.forSet || line[i].sep.Open?
  {
  }

  /** In a header the tracker remembers whether its set has been opened. */
  lemma {:induction false} SetTracked(line: seq<Shape>, starts: set<nat>, i: nat, f: nat)
    requires i <= |line| && AreStarts(line, starts) && HeaderFrom(line, starts, i, f)
    ensures Track(true, line, i).forHeader && (Track(true, line, i).forSet <==> ParenSince(line, f, i))
    decreases i
  {
    hide Begins, Consume, TrackerOk, TrackerBegins, Leaves, ConditionFrom, Is, EndsHeader;
    var c := Track(true, line, i - 1);
    TrackReflects(line, starts, i);
    TrackReflects(line, starts, i - 1);
    TrackOk(true, line, i - 1);
    if f == i - 1 {
      StartIsFree(line, starts, f);
      ForConsumed(c, line, i - 1);
    } else {
      assert HeaderFrom(line, starts, i - 1, f);
      SetTracked(line, starts, i - 1, f);
      HeaderConsumed(c, line, i - 1);
    }
  }

  /** A block can be opened in front of token i: in a `for` header as its set, unless
      one has been opened; elsewhere where a command may begin or an `if` condition
      has just ended. */
  ghost predicate BlockFits(line: seq<Shape>, starts: set<nat>, i: nat)
    requires i <= |line|
  {
    if InHeader(line, starts, i)
    then exists f: nat :: HeaderFrom(line, starts, i, f) && !ParenSince(line, f, i)
    else Leaves(line, starts, i) || exists f: nat :: ConditionFrom(line, starts, i, f) && IsCondition(line, i, f, i)
  }

  /** The tracker opens a block exactly there. */
  lemma BlocksOpenExactly(line: seq<Shape>, starts: set<nat>, i: nat)
    requires i <= |line| && AreStarts(line, starts)
    ensures Track(true, line, i).OpensBlock() <==> BlockFits(line, starts, i)
  {
    hide Begins, IsCondition, HeaderFrom, ConditionFrom, Leaves, Track, IfScan, ParenSince;
    var c := Track(true, line, i);
    TrackReflects(line, starts, i);
    TrackOk(true, line, i);
    forall f: nat | HeaderFrom(line, starts, i, f) ensures c.forSet <==> ParenSince(line, f, i) {
      SetTracked(line, starts, i, f);
    }
    if c.ifStart.Some? {
      ConditionEnds(line, i, c.ifStart.value, i);
    }
  }
}
