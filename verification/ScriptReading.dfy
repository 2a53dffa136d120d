/**
  The reference reading of a batch script: all physical lines are first joined to
  logical ones, then the logical lines are read one after the other.  The scanner,
  which sees one physical line at a time, reports the same.
 */
module ScriptReading {
  import opened Basics
  import opened BatchText
  import opened BatchLexer
  import opened ChocoParser
  import opened BatchScript

  /** The last caret of the line, with nothing but blanks behind it. */
  predicate LastCaret(line: string, k: nat) {
    k < |line| && line[k] == '^' && forall j :: k < j < |line| ==> line[j] in {' ', '\t'}
  }

  /** The line ends with a caret, blanks behind it aside. */
  predicate EndsInCaret(line: string) { exists k :: 0 <= k < |line| && LastCaret(line, k) }

  lemma CaretBeforeBlank(line: string, k: nat)
    requires |line| > 0 && line[|line| - 1] in {' ', '\t'}
    ensures LastCaret(line, k) <==> LastCaret(line[..|line| - 1], k)
  {
    var front := line[..|line| - 1];
    assert forall j :: 0 <= j < |front| ==> front[j] == line[j];
  }

  lemma {:induction false} CommentContinuesMeans(line: string)
    ensures CommentContinues(line) <==> EndsInCaret(line)
    decreases |line|
  {
    if |line| > 0 {
      var front, last := line[..|line| - 1], line[|line| - 1];
      if last in {' ', '\t'} {
        CommentContinuesMeans(front);
        hide LastCaret;
        forall k: nat ensures LastCaret(line, k) <==> LastCaret(front, k) {
          CaretBeforeBlank(line, k);
        }
      } else if last == '^' {
        assert LastCaret(line, |line| - 1);
      }
    }
  }

  /** Whether the next physical line is joined to the text that ends with this one. */
  predicate Continues(before: string, line: string) {
    if IsBatchComment(before + line) then EndsInCaret(line)
    else line != "" && QuoteRun(Unquoted, before + line) == Escaped
  }

  /** The logical lines of physical ones, when `open` says that `before` is to be
      continued. */
  function LogicalLines(before: string, open: bool, lines: seq<string>): seq<string>
    decreases |lines|
  {
    if lines == [] then (if open then [before] else [])
    else
      var line := DropEndWhile(lines[0], {'\r'});
      if Continues(before, line) then LogicalLines(before + line, true, lines[1..])
      else [before + line] + LogicalLines("", false, lines[1..])
  }

  /** The entries of the logical lines, comments and blank lines aside; blocks stay
      open from line to line. */
  function LogicalEntries(depth: nat, logical: seq<string>): seq<Entry>
    decreases |logical|
  {
    if logical == [] then []
    else if AllSpace(logical[0]) || IsBatchComment(logical[0]) then LogicalEntries(depth, logical[1..])
    else
      var st := Run(NewLex(depth), logical[0]);
      AllEntries(st.tokens, true) + LogicalEntries(st.depth, logical[1..])
  }

  lemma {:induction false} LeftTrimmed(s: string)
    ensures TrimLeft(s) == "" <==> AllSpace(s)
    ensures TrimLeft(s) != "" ==> !IsSpace(TrimLeft(s)[0])
  {
    if |s| > 0 {
      LeftTrimmed(s[1..]);
      assert forall i :: 0 <= i < |s[1..]| ==> s[1..][i] == s[i + 1];
      if IsSpace(s[0]) && AllSpace(s[1..]) {
        forall i | 0 <= i < |s| ensures IsSpace(s[i]) {
          assert i > 0 ==> s[i] == s[1..][i - 1];
        }
      }
    }
  }

  lemma {:induction false} RightKeeps(s: string)
    requires |s| > 0 && !IsSpace(s[0])
    ensures TrimRight(s) != ""
  {
    if IsSpace(s[|s| - 1]) {
      RightKeeps(s[..|s| - 1]);
    }
  }

  lemma BlankTrimmed(line: string)
    ensures TrimSpace(line) == "" <==> AllSpace(line)
  {
    LeftTrimmed(line);
    if !AllSpace(line) {
      RightKeeps(TrimLeft(line));
    }
  }

  /** What one logical line adds. */
  lemma LineAdds(depth: nat, line: string, rest: seq<string>)
    ensures var (tokens, after) := LineTokens(depth, line);
      LogicalEntries(depth, [line] + rest) == AllEntries(tokens, true) + LogicalEntries(after, rest)
  {
    hide IsBatchComment, Run, TrimSpace, AllSpace;
    BlankTrimmed(line);
    assert ([line] + rest)[1..] == rest;
    assert AllEntries([], true) == [];
  }

  /** One physical line: held back, or the end of a logical line. */
  lemma FeedLine(sc: Scanner, line: string)
    requires ScannerOk(sc)
    ensures HoldsBack(sc, line) <==> Continues(sc.pending, line)
  {
    hide IsBatchComment, QuoteRun, CommentContinues, EndsInCaret;
    FeedOk(sc, line);
    CommentContinuesMeans(line);
    if !IsComment(sc, line) {
      HeldBackExactly(sc, line);
    }
  }

  lemma {:induction false} ScannerReads(sc: Scanner, lines: seq<string>)
    requires ScannerOk(sc)
    ensures ReadEntries(ReadAll(sc, lines).1) ==
            LogicalEntries(sc.blockDepth, LogicalLines(sc.pending, sc.hasPending, lines))
    decreases |lines|
  {
    hide IsBatchComment, LineTokens, LogicalEntries, AllEntries, HoldsBack, Continues, ScannerOk, ReadEntries, ReadAll;
    UnfoldRead(sc, lines);
    if lines == [] {
      NothingLeft(sc.blockDepth);
      if sc.hasPending {
        LineAdds(sc.blockDepth, sc.pending, []);
        NothingLeft(LineTokens(sc.blockDepth, sc.pending).1);
        assert [sc.pending] + [] == [sc.pending];
      }
    } else {
      var line := DropEndWhile(lines[0], {'\r'});
      FeedOk(sc, line);
      FeedLine(sc, line);
      NothingLeft(sc.blockDepth);
      var next := Feed(sc, line).0;
      ScannerReads(next, lines[1..]);
      if !Continues(sc.pending, line) {
        LineAdds(sc.blockDepth, sc.pending + line, LogicalLines("", false, lines[1..]));
      }
    }
  }

  lemma NothingLeft(depth: nat)
    ensures LogicalEntries(depth, []) == [] && AllEntries([], true) == []
  {
  }

  /** The scanner reports, in order, exactly what the logical lines of the script
      report that are neither blank nor comments. */
  lemma ScriptIsItsLogicalLines(lines: seq<string>)
    ensures ReadEntries(ReadAll(NEW_SCANNER, lines).1) == LogicalEntries(0, LogicalLines("", false, lines))
  {
    hide LogicalEntries, LogicalLines, ReadAll, ReadEntries;
    ScannerReads(NEW_SCANNER, lines);
  }
}
