/**
  A redirection inserted into one physical line of a whole batch script.
 */
module ScriptInsertion {
  import opened Basics
  import opened CommandTracking
  import opened BatchText
  import opened BatchLexer
  import opened BatchRedirection
  import opened BatchInsertion
  import opened ChocoParser
  import opened BatchScript
  import opened BatchTransparency

  /** A physical line as the scanner gets it. */
  function Stripped(line: string): string { DropEndWhile(line, {'\r'}) }

  /** All packages reported for the lines, read from a scanner's state. */
  function Packages(sc: Scanner, lines: seq<string>): seq<Entry> { ReadEntries(ReadAll(sc, lines).1) }

  lemma PackagesUnfold(sc: Scanner, lines: seq<string>)
    ensures lines == [] ==> Packages(sc, lines) == AllEntries(Finish(sc).1, true)
    ensures lines != [] ==>
      Packages(sc, lines) ==
      AllEntries(Feed(sc, Stripped(lines[0])).1, true) + Packages(Feed(sc, Stripped(lines[0])).0, lines[1..])
  {
    UnfoldRead(sc, lines);
  }

  /** The logical line that the pending text begins and the lines complete. */
  function Completed(sc: Scanner, lines: seq<string>): string
    decreases |lines|
  {
    if lines == [] then sc.pending
    else
      var line := Stripped(lines[0]);
      if HoldsBack(sc, line) then Completed(Feed(sc, line).0, lines[1..]) else sc.pending + line
  }

  /** The logical line that a stripped physical line is part of. */
  function Whole(sc: Scanner, line: string, after: seq<string>): string {
    if HoldsBack(sc, line) then Completed(Feed(sc, line).0, after) else sc.pending + line
  }

  // ----- Quotes of the inserted text -----

  lemma InsertedPlain(r: Redirection, b: char, b': char)
    requires IsBlank(b) && IsBlank(b') && r.Valid()
    ensures var x := Insert(r, b, b', "");
      forall i :: 0 <= i < |x| ==> x[i] != '"' && x[i] != '^'
  {
    InsertSplit(r, b, b', "");
    var y := Then(r.Rest(), b', "");
    assert forall i :: 0 <= i < |r.Rest()| ==> r.Rest()[i] != '"' && r.Rest()[i] != '^';
    assert forall i :: 0 <= i < |y| ==> y[i] == if i < |r.Rest()| then r.Rest()[i] else b';
  }

  lemma InsertFirst(r: Redirection, b: char, b': char, rest: string)
    ensures Insert(r, b, b', rest) == Insert(r, b, b', "") + rest
  {
  }

  lemma AppendInsert(p: string, s: string, r: Redirection, b: char, b': char, rest: string, more: string)
    ensures p + (s + Insert(r, b, b', rest)) == (p + s) + Insert(r, b, b', rest)
    ensures ((p + s) + Insert(r, b, b', rest)) + more == (p + s) + Insert(r, b, b', rest + more)
  {
    InsertFirst(r, b, b', rest);
    InsertFirst(r, b, b', rest + more);
  }

  /** Outside quotes the insertion leaves the quote automaton alone. */
  lemma SameQuotes(q: QuoteState, s: string, rest: string, r: Redirection, b: char, b': char)
    requires IsBlank(b) && IsBlank(b') && r.Valid() && QuoteRun(q, s) == Unquoted
    ensures QuoteRun(q, s + Insert(r, b, b', rest)) == QuoteRun(q, s + rest)
  {
    hide QuoteRun, Insert;
    var x := Insert(r, b, b', "");
    InsertedPlain(r, b, b');
    QuotePlain(x);
    InsertFirst(r, b, b', rest);
    QuoteRunConcat(q, s, x + rest);
    QuoteRunConcat(Unquoted, x, rest);
    QuoteRunConcat(q, s, rest);
  }

  // ----- The rest of the logical line -----

  /** Two scanners in the middle of the same command line, one with the insertion
      behind the text `a`. */
  ghost predicate Differ(sc: Scanner, sc': Scanner, a: string, y: string, r: Redirection, b: char, b': char) {
    && ScannerOk(sc) && sc.hasPending && !sc.pendingComment
    && sc.pending == a + y
    && sc' == sc.(pending := a + Insert(r, b, b', y))
  }

  lemma DifferFeed(
      sc: Scanner, sc': Scanner, a: string, y: string, r: Redirection, b: char, b': char, line: string)
    requires Differ(sc, sc', a, y, r, b, b') && HoldsBack(sc, line)
    ensures HoldsBack(sc', line)
    ensures Differ(Feed(sc, line).0, Feed(sc', line).0, a, y + line, r, b, b')
    ensures Feed(sc, line).1 == [] && Feed(sc', line).1 == []
  {
    hide QuoteRun, IsBatchComment, LineTokens, Insert, ScannerOk;
    PendingStays(sc, line);
    assert sc.pending + line == a + (y + line);
    AppendInsert(a, "", r, b, b', y, line);
    assert a + "" == a && "" + Insert(r, b, b', y) == Insert(r, b, b', y);
  }

  lemma PendingStays(sc: Scanner, line: string)
    requires ScannerOk(sc)
    ensures ScannerOk(Feed(sc, line).0)
    ensures IsBatchComment(sc.pending + line) == IsComment(sc, line)
  {
    FeedOk(sc, line);
  }

  /** A logical line that is complete is read the same. */
  lemma SameLine(depth: nat, a: string, y: string, st: Lex, r: Redirection, b: char, b': char)
    requires IsBlank(b) && IsBlank(b') && r.Valid() && !IsBatchComment(a + y)
    requires Reaches(NewLex(depth), a + y, |a|, st) && AtRest(st)
    ensures var (one, two) := (LineTokens(depth, a + y), LineTokens(depth, a + Insert(r, b, b', y)));
      AllEntries(two.0, true) == AllEntries(one.0, true) && two.1 == one.1
  {
    PackagesUnchanged(depth, a, y, st, r, b, b');
  }

  lemma {:induction false} TailSame(
      sc: Scanner, sc': Scanner, a: string, y: string, lines: seq<string>, st: Lex, r: Redirection, b: char, b': char)
    requires IsBlank(b) && IsBlank(b') && r.Valid() && Differ(sc, sc', a, y, r, b, b')
    requires Reaches(NewLex(sc.blockDepth), Completed(sc, lines), |a|, st) && AtRest(st)
    ensures Packages(sc', lines) == Packages(sc, lines)
    decreases |lines|
  {
    hide ReadAll, ReadEntries, AllEntries, LineTokens, Reaches, IsBatchComment, QuoteRun, Insert, Stripped, Packages;
    PackagesUnfold(sc, lines);
    PackagesUnfold(sc', lines);
    if lines == [] {
      SameLine(sc.blockDepth, a, y, st, r, b, b');
    } else {
      var line := Stripped(lines[0]);
      if HoldsBack(sc, line) {
        DifferFeed(sc, sc', a, y, r, b, b', line);
        TailSame(Feed(sc, line).0, Feed(sc', line).0, a, y + line, lines[1..], st, r, b, b');
      } else {
        PendingStays(sc, line);
        assert sc.pending + line == a + (y + line);
        AppendInsert(a, "", r, b, b', y, line);
        assert a + "" == a && "" + Insert(r, b, b', y) == Insert(r, b, b', y);
        SameLine(sc.blockDepth, a, y + line, st, r, b, b');
      }
    }
  }

  // ----- The physical line itself -----

  /** The automaton over the physical line alone, as the scanner runs it. */
  function QuoteAtStart(sc: Scanner): QuoteState { if sc.hasPending then Escaped else Unquoted }

  lemma PhysicalQuotes(sc: Scanner, s: string)
    requires ScannerOk(sc) && (sc.hasPending ==> !sc.pendingComment)
    ensures QuoteRun(Unquoted, sc.pending + s) == QuoteRun(QuoteAtStart(sc), s)
  {
    QuoteRunConcat(Unquoted, sc.pending, s);
  }

  lemma {:induction false} CompletedExtends(sc: Scanner, lines: seq<string>)
    ensures |Completed(sc, lines)| >= |sc.pending| && Completed(sc, lines)[..|sc.pending|] == sc.pending
    decreases |lines|
  {
    if lines != [] {
      var line := Stripped(lines[0]);
      if HoldsBack(sc, line) {
        CompletedExtends(Feed(sc, line).0, lines[1..]);
      }
    }
  }

  /** Where the tokenizer stands between words inside the logical line, the physical
      line up to there leaves no quote or escape open. */
  lemma UnquotedThere(sc: Scanner, s: string, whole: string, st: Lex)
    requires ScannerOk(sc) && (sc.hasPending ==> !sc.pendingComment)
    requires |sc.pending + s| < |whole| && whole[..|sc.pending + s|] == sc.pending + s
    requires Reaches(NewLex(sc.blockDepth), whole, |sc.pending + s|, st) && AtRest(st)
    ensures QuoteRun(QuoteAtStart(sc), s) == Unquoted
  {
    hide QuoteRun, Reaches, ScannerOk;
    TokenizerQuotes(NewLex(sc.blockDepth), whole, |sc.pending + s|, st);
    PhysicalQuotes(sc, s);
  }

  /** The insertion does not change whether the line is held back. */
  lemma SameHold(sc: Scanner, s: string, rest: string, r: Redirection, b: char, b': char)
    requires IsBlank(b) && IsBlank(b') && r.Valid() && rest != ""
    requires !IsComment(sc, s + rest) && !IsComment(sc, s + Insert(r, b, b', rest))
    requires QuoteRun(QuoteAtStart(sc), s) == Unquoted
    ensures HoldsBack(sc, s + Insert(r, b, b', rest)) <==> HoldsBack(sc, s + rest)
  {
    hide QuoteRun, IsComment, Insert;
    InsertFirst(r, b, b', rest);
    SameQuotes(QuoteAtStart(sc), s, rest, r, b, b');
  }

  lemma LastIsBlank(s: string, r: Redirection, b: char, b': char)
    ensures var line := s + Insert(r, b, b', ""); |line| > 0 && line[|line| - 1] == b'
  {
  }

  /** The inserted line is no comment either: appended text would not change that. */
  lemma HeldNoComment(depth: nat, s: string, rest: string, t: string, st: Lex, r: Redirection, b: char, b': char)
    requires IsBlank(b) && IsBlank(b') && r.Valid() && !IsBatchComment(s + rest)
    requires rest != "" && rest[|rest| - 1] == '^'
    requires Reaches(NewLex(depth), s + (rest + t), |s|, st) && AtRest(st)
    ensures !IsBatchComment(s + Insert(r, b, b', rest))
  {
    hide Reaches, IsBatchComment, Insert, CommentContinues;
    var line, line' := s + rest, s + Insert(r, b, b', rest);
    EndsCommentContinues(line);
    CommentStable(line, t);
    assert line + t == s + (rest + t);
    InsertionMakesNoComment(depth, s, rest + t, st, r, b, b');
    AppendInsert("", s, r, b, b', rest, t);
    assert "" + s == s;
    SameEnd(s, rest, r, b, b');
    EndsCommentContinues(line');
    CommentStable(line', t);
  }

  lemma StillNoComment(
      sc: Scanner, s: string, rest: string, lines: seq<string>, st: Lex, r: Redirection, b: char, b': char)
    requires IsBlank(b) && IsBlank(b') && r.Valid() && ScannerOk(sc) && !IsComment(sc, s + rest)
    requires rest == "" ==> !HoldsBack(sc, s + rest)
    requires Reaches(NewLex(sc.blockDepth), Whole(sc, s + rest, lines), |sc.pending + s|, st) && AtRest(st)
    ensures !IsComment(sc, s + Insert(r, b, b', rest))
  {
    hide QuoteRun, Reaches, IsBatchComment, Insert, LineTokens, Completed;
    if !sc.hasPending {
      var line := s + rest;
      assert sc.pending + s == s && sc.pending + line == line;
      if HoldsBack(sc, line) {
        var whole := Whole(sc, line, lines);
        CompletedExtends(Feed(sc, line).0, lines);
        var t := whole[|line|..];
        assert whole == s + (rest + t);
        EscapedEndsInCaret(Unquoted, line);
        HeldNoComment(sc.blockDepth, s, rest, t, st, r, b, b');
      } else {
        InsertionMakesNoComment(sc.blockDepth, s, rest, st, r, b, b');
      }
    }
  }

  lemma SameEnd(s: string, rest: string, r: Redirection, b: char, b': char)
    requires rest != ""
    ensures var line := s + Insert(r, b, b', rest); |line| > 0 && line[|line| - 1] == rest[|rest| - 1]
  {
    InsertFirst(r, b, b', rest);
  }

  lemma EndsCommentContinues(line: string)
    requires |line| > 0 && line[|line| - 1] == '^'
    ensures CommentContinues(line)
  {
  }

  // ----- A continuation that nothing continues -----

  /** Between words and yet behind a continuation caret: then nothing follows. */
  lemma NothingFollows(sc: Scanner, s: string, after: seq<string>, st: Lex)
    requires ScannerOk(sc) && !IsComment(sc, s) && HoldsBack(sc, s)
    requires Reaches(NewLex(sc.blockDepth), Whole(sc, s, after), |sc.pending + s|, st) && AtRest(st)
    ensures after == [] || Stripped(after[0]) == ""
    ensures Whole(sc, s, after) == sc.pending + s
  {
    hide Reaches, QuoteRun, IsBatchComment, Stripped, ScannerOk, LineTokens;
    var whole := Whole(sc, s, after);
    CompletedExtends(Feed(sc, s).0, after);
    assert |whole| <= |sc.pending + s| by {
      if |whole| > |sc.pending + s| {
        UnquotedThere(sc, s, whole, st);
      }
    }
    if after != [] {
      LongerBy(Feed(sc, s).0, after);
    }
  }

  lemma LongerBy(sc: Scanner, lines: seq<string>)
    requires lines != []
    ensures |Completed(sc, lines)| >= |sc.pending| + |Stripped(lines[0])|
  {
    var line := Stripped(lines[0]);
    if HoldsBack(sc, line) {
      CompletedExtends(Feed(sc, line).0, lines[1..]);
    }
  }

  lemma NoTokens()
    ensures AllEntries([], true) == []
  {
    SpaceyReportsNothing([]);
  }

  /** An empty line between logical lines changes nothing. */
  lemma EmptyLine(depth: nat)
    ensures Feed(Scanner("", false, false, depth), "") == (Scanner("", false, false, depth), [])
  {
    assert "" + "" == "" && TrimSpace("") == "";
    CommentChars("");
  }

  lemma CutSame(
      sc: Scanner, line: string, line': string, after: seq<string>, s: string, st: Lex, r: Redirection, b: char, b': char)
    requires IsBlank(b) && IsBlank(b') && r.Valid() && ScannerOk(sc)
    requires Stripped(line) == s && Stripped(line') == s + Insert(r, b, b', "")
    requires !IsComment(sc, s) && HoldsBack(sc, s)
    requires Reaches(NewLex(sc.blockDepth), Whole(sc, s, after), |sc.pending + s|, st) && AtRest(st)
    ensures Packages(sc, [line'] + after) == Packages(sc, [line] + after)
  {
    hide AllEntries, LineTokens, Reaches, IsBatchComment, QuoteRun, Insert, Stripped, Packages, ScannerOk, Completed;
    var a, two := sc.pending + s, s + Insert(r, b, b', "");
    assert ([line] + after)[1..] == after && ([line'] + after)[1..] == after;
    PackagesUnfold(sc, [line] + after);
    PackagesUnfold(sc, [line'] + after);
    NothingFollows(sc, s, after, st);
    assert a + "" == a;
    PendingStays(sc, s);
    CutNoComment(sc, s, st, r, b, b');
    CutNotHeld(sc, s, r, b, b');
    SameLine(sc.blockDepth, a, "", st, r, b, b');
    AppendInsert(sc.pending, s, r, b, b', "", "");
    NoTokens();
    var held, done := Feed(sc, s).0, Feed(sc, two).0;
    PackagesUnfold(held, after);
    PackagesUnfold(done, after);
    if after != [] {
      EmptyLine(done.blockDepth);
    }
  }

  lemma CutNoComment(sc: Scanner, s: string, st: Lex, r: Redirection, b: char, b': char)
    requires IsBlank(b) && r.Valid() && ScannerOk(sc) && !IsComment(sc, s)
    requires Reaches(NewLex(sc.blockDepth), (sc.pending + s) + "", |sc.pending + s|, st) && AtRest(st)
    ensures !IsComment(sc, s + Insert(r, b, b', ""))
  {
    hide Reaches, IsBatchComment, Insert;
    if !sc.hasPending {
      assert sc.pending + s == s && s + "" == s;
      InsertionMakesNoComment(sc.blockDepth, s, "", st, r, b, b');
    }
  }

  lemma CutNotHeld(sc: Scanner, s: string, r: Redirection, b: char, b': char)
    requires IsBlank(b') && !IsComment(sc, s + Insert(r, b, b', ""))
    ensures !HoldsBack(sc, s + Insert(r, b, b', ""))
  {
    hide QuoteRun, IsComment, Insert;
    var line' := s + Insert(r, b, b', "");
    LastIsBlank(s, r, b, b');
    if QuoteRun(QuoteAtStart(sc), line') == Escaped {
      EscapedEndsInCaret(QuoteAtStart(sc), line');
    }
  }

  // ----- From the line on -----

  lemma PlainSame(
      sc: Scanner, line: string, line': string, after: seq<string>, s: string, rest: string, st: Lex,
      r: Redirection, b: char, b': char)
    requires IsBlank(b) && IsBlank(b') && r.Valid() && ScannerOk(sc)
    requires Stripped(line) == s + rest && Stripped(line') == s + Insert(r, b, b', rest)
    requires !IsComment(sc, s + rest) && (rest == "" ==> !HoldsBack(sc, s + rest))
    requires Reaches(NewLex(sc.blockDepth), Whole(sc, s + rest, after), |sc.pending + s|, st) && AtRest(st)
    ensures Packages(sc, [line'] + after) == Packages(sc, [line] + after)
  {
    hide AllEntries, LineTokens, Reaches, IsBatchComment, QuoteRun, Insert, Stripped, Packages, ScannerOk, Completed;
    var one, two := s + rest, s + Insert(r, b, b', rest);
    assert ([line] + after)[1..] == after && ([line'] + after)[1..] == after;
    PackagesUnfold(sc, [line] + after);
    PackagesUnfold(sc, [line'] + after);
    StillNoComment(sc, s, rest, after, st, r, b, b');
    HoldKept(sc, s, rest, after, st, r, b, b');
    var a := sc.pending + s;
    AppendInsert(sc.pending, s, r, b, b', rest, "");
    assert sc.pending + one == a + rest;
    PendingStays(sc, one);
    if HoldsBack(sc, one) {
      TailSame(Feed(sc, one).0, Feed(sc, two).0, a, rest, after, st, r, b, b');
    } else {
      SameLine(sc.blockDepth, a, rest, st, r, b, b');
    }
  }

  lemma HoldKept(
      sc: Scanner, s: string, rest: string, after: seq<string>, st: Lex, r: Redirection, b: char, b': char)
    requires IsBlank(b) && IsBlank(b') && r.Valid() && ScannerOk(sc)
    requires !IsComment(sc, s + rest) && !IsComment(sc, s + Insert(r, b, b', rest))
    requires rest == "" ==> !HoldsBack(sc, s + rest)
    requires Reaches(NewLex(sc.blockDepth), Whole(sc, s + rest, after), |sc.pending + s|, st) && AtRest(st)
    ensures HoldsBack(sc, s + Insert(r, b, b', rest)) <==> HoldsBack(sc, s + rest)
  {
    hide Reaches, IsBatchComment, QuoteRun, Insert, ScannerOk, HoldsBack, Whole;
    if rest == "" {
      assert s + rest == s;
      CutNotHeld(sc, s, r, b, b');
    } else {
      WholeExtends(sc, s, rest, after);
      UnquotedThere(sc, s, Whole(sc, s + rest, after), st);
      SameHold(sc, s, rest, r, b, b');
    }
  }

  lemma WholeExtends(sc: Scanner, s: string, rest: string, after: seq<string>)
    requires rest != ""
    ensures var whole := Whole(sc, s + rest, after);
      |sc.pending + s| < |whole| && whole[..|sc.pending + s|] == sc.pending + s
  {
    hide HoldsBack, Completed;
    var line := s + rest;
    assert sc.pending + line == (sc.pending + s) + rest;
    if HoldsBack(sc, line) {
      CompletedExtends(Feed(sc, line).0, after);
      var whole := Whole(sc, line, after);
      assert whole[..|sc.pending + s|] == whole[..|sc.pending + line|][..|sc.pending + s|];
    }
  }

  // ----- The script -----

  /** The scanner after the given lines. */
  function ScannerAfter(sc: Scanner, lines: seq<string>): Scanner
    decreases |lines|
  {
    if lines == [] then sc else ScannerAfter(Feed(sc, Stripped(lines[0])).0, lines[1..])
  }

  lemma {:induction false} SamePrefix(sc: Scanner, before: seq<string>, tail: seq<string>, tail': seq<string>)
    requires Packages(ScannerAfter(sc, before), tail') == Packages(ScannerAfter(sc, before), tail)
    requires tail != [] && tail' != []
    ensures Packages(sc, before + tail') == Packages(sc, before + tail)
    decreases |before|
  {
    hide Packages, Feed, Stripped, AllEntries;
    if before == [] {
      assert before + tail == tail && before + tail' == tail';
    } else {
      var next := Feed(sc, Stripped(before[0])).0;
      ConsTail(before, tail);
      ConsTail(before, tail');
      PackagesUnfold(sc, before + tail);
      PackagesUnfold(sc, before + tail');
      SamePrefix(next, before[1..], tail, tail');
    }
  }

  lemma ConsTail(before: seq<string>, tail: seq<string>)
    requires before != []
    ensures (before + tail)[0] == before[0] && (before + tail)[1..] == before[1..] + tail
  {
  }

  lemma {:induction false} ScannerAfterOk(sc: Scanner, before: seq<string>)
    requires ScannerOk(sc)
    ensures ScannerOk(ScannerAfter(sc, before))
    decreases |before|
  {
    if before != [] {
      hide Feed, ScannerOk;
      PendingStays(sc, Stripped(before[0]));
      ScannerAfterOk(Feed(sc, Stripped(before[0])).0, before[1..]);
    }
  }

  /** In a whole script, a redirection put into any physical line of a command,
      wherever its logical line is read between words and outside quotes, leaves all
      packages reported for the script as they were. */
  lemma ScriptUnchanged(
      before: seq<string>, line: string, line': string, after: seq<string>, s: string, rest: string, st: Lex,
      r: Redirection, b: char, b': char)
    requires IsBlank(b) && IsBlank(b') && r.Valid()
    requires Stripped(line) == s + rest && Stripped(line') == s + Insert(r, b, b', rest)
    requires var sc := ScannerAfter(NEW_SCANNER, before);
      && !IsComment(sc, s + rest)
      && Reaches(NewLex(sc.blockDepth), Whole(sc, s + rest, after), |sc.pending + s|, st) && AtRest(st)
    ensures Packages(NEW_SCANNER, before + ([line'] + after)) == Packages(NEW_SCANNER, before + ([line] + after))
  {
    hide Packages, Reaches, HoldsBack, IsComment, Whole, Stripped, Insert;
    var sc := ScannerAfter(NEW_SCANNER, before);
    ScannerAfterOk(NEW_SCANNER, before);
    if rest == "" && HoldsBack(sc, s + rest) {
      assert s + rest == s;
      CutSame(sc, line, line', after, s, st, r, b, b');
    } else {
      PlainSame(sc, line, line', after, s, rest, st, r, b, b');
    }
    SamePrefix(NEW_SCANNER, before, [line] + after, [line'] + after);
  }
}
