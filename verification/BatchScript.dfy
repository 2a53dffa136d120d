/**
  Reading a batch script line by line: caret continuations join physical lines
  to logical ones, comment lines are skipped, and open blocks carry over.
 */
module BatchScript {
  import opened Basics
  import opened CommandTracking
  import opened BatchText
  import opened BatchLexer
  import opened BatchTokenizer
  import opened ChocoParser

  // ----- Comments -----

  predicate HasPrefix(s: string, prefix: string) { |s| >= |prefix| && s[..|prefix|] == prefix }

  predicate IsRem(word: string) {
    word == "rem" || HasPrefix(word, "rem ") || HasPrefix(word, "rem\t")
  }

  predicate IsCommentText(trimmed: string) {
    HasPrefix(trimmed, "::") || IsRem(TrimAt(Lower(trimmed)))
  }

  /** A `REM` or `::` comment line. */
  predicate IsBatchComment(line: string) { IsCommentText(TrimSpace(line)) }

  // ----- Continuations -----

  /** Whether a physical line ends with an unquoted, unescaped caret, when its
      first character may be escaped by the previous line. */
  method BatchLineContinues(line: string, escaped: bool) returns (r: bool)
    ensures r == (|line| > 0 && QuoteRun(if escaped then Escaped else Unquoted, line) == Escaped)
  {
    var esc, inQuote := escaped, false;
    var i := 0;
    ghost var q := if escaped then Escaped else Unquoted;
    assert line[0..] == line;
    while i < |line|
      invariant 0 <= i <= |line| && !(esc && inQuote)
      invariant QuoteRun(q, line) == QuoteRun(if esc then Escaped else QuoteOf(inQuote), line[i..])
      invariant esc ==> i < |line| || i == 0
    {
      var ch := line[i];
      assert line[i..][1..] == line[i + 1..];
      if esc {
        esc := false;
      } else if inQuote {
        if ch == '"' { inQuote := false; }
      } else if ch == '"' {
        inQuote := true;
      } else if ch == '^' {
        if i == |line| - 1 { return true; }
        esc := true;
      }
      i := i + 1;
    }
    return false;
  }

  /** Whether a comment line ends with a caret, ignoring trailing blanks; whatever
      is appended comes after that caret. */
  predicate CommentContinues(line: string) {
    var trimmed := DropEndWhile(line, {' ', '\t'});
    |trimmed| > 0 && trimmed[|trimmed| - 1] == '^'
  }

  // ----- The scanner -----

  datatype Scanner = Scanner(pending: string, hasPending: bool, pendingComment: bool, blockDepth: nat)

  const NEW_SCANNER := Scanner("", false, false, 0)

  predicate IsComment(sc: Scanner, line: string) {
    if sc.hasPending then sc.pendingComment else IsBatchComment(line)
  }

  /** Whether a physical line is held back to be joined with the next one. */
  predicate HoldsBack(sc: Scanner, line: string) {
    if IsComment(sc, line) then CommentContinues(line)
    else |line| > 0 && QuoteRun(if sc.hasPending then Escaped else Unquoted, line) == Escaped
  }

  /** The tokens of a logical line; comment and blank lines have none. */
  function LineTokens(depth: nat, line: string): (seq<Token>, nat) {
    if TrimSpace(line) == "" || IsBatchComment(line) then ([], depth)
    else
      var st := Run(NewLex(depth), line);
      (st.tokens, st.depth)
  }

  /** Feeds one physical line; yields the tokens of a logical line it completes. */
  function Feed(sc: Scanner, line: string): (Scanner, seq<Token>) {
    if HoldsBack(sc, line) then
      (Scanner(sc.pending + line, true, IsComment(sc, line), sc.blockDepth), [])
    else
      var (tokens, depth) := LineTokens(sc.blockDepth, sc.pending + line);
      (Scanner("", false, IsComment(sc, line), depth), tokens)
  }

  /** Completes a dangling continuation at end of input. */
  function Finish(sc: Scanner): (Scanner, seq<Token>) {
    if !sc.hasPending then (sc, [])
    else
      var (tokens, depth) := LineTokens(sc.blockDepth, sc.pending);
      (sc.(pending := "", hasPending := false, blockDepth := depth), tokens)
  }

  /** The scanner as the source keeps it. */
  class ScriptScanner {
    var pending: string
    var hasPending: bool
    var pendingComment: bool
    var blockDepth: nat

    function View(): Scanner
      reads this
    {
      Scanner(pending, hasPending, pendingComment, blockDepth)
    }

    constructor ()
      ensures View() == NEW_SCANNER
    {
      pending, hasPending, pendingComment, blockDepth := "", false, false, 0;
    }

    method ParseLine(line: string) returns (entries: seq<Entry>)
      modifies this`blockDepth
      ensures blockDepth == LineTokens(old(blockDepth), line).1
      ensures entries == AllEntries(LineTokens(old(blockDepth), line).0, true)
    {
      var tokens: seq<Token> := [];
      if TrimSpace(line) != "" && !IsBatchComment(line) {
        tokens, blockDepth := TokenizeBatch(line, blockDepth);
      }
      entries := ParseChocoTokens(tokens, true);
    }

    method FeedBatch(line: string) returns (entries: seq<Entry>)
      requires !hasPending ==> pending == ""
      modifies this
      ensures View() == Feed(old(View()), line).0
      ensures entries == AllEntries(Feed(old(View()), line).1, true)
    {
      assert "" + line == line;
      if !hasPending {
        pendingComment := IsBatchComment(line);
      }
      var continues: bool;
      if pendingComment {
        continues := CommentContinues(line);
      } else {
        continues := BatchLineContinues(line, hasPending);
      }
      if continues {
        pending := pending + line;
        hasPending := true;
        return [];
      }
      var logical := line;
      if hasPending {
        logical := pending + line;
        pending := "";
        hasPending := false;
      }
      entries := ParseLine(logical);
    }

    method Flush() returns (entries: seq<Entry>)
      modifies this
      ensures View() == Finish(old(View())).0
      ensures entries == AllEntries(Finish(old(View())).1, true)
    {
      if !hasPending {
        return [];
      }
      var line := pending;
      pending := "";
      hasPending := false;
      entries := ParseLine(line);
    }
  }

  // ----- Joining -----

  ghost predicate ScannerOk(sc: Scanner) {
    if !sc.hasPending then sc.pending == ""
    else
      && CommentContinues(sc.pending)
      && IsBatchComment(sc.pending) == sc.pendingComment
      && (!sc.pendingComment ==> QuoteRun(Unquoted, sc.pending) == Escaped)
  }

  /** A physical line of a command is held back exactly when it is not empty and
      the quote rules, run over the text joined so far, end on an unquoted and
      unescaped caret; in particular no double quote is open there. */
  lemma HeldBackExactly(sc: Scanner, line: string)
    requires ScannerOk(sc) && !IsComment(sc, line)
    ensures HoldsBack(sc, line) <==> |line| > 0 && QuoteRun(Unquoted, sc.pending + line) == Escaped
  {
    QuoteRunConcat(Unquoted, sc.pending, line);
    if !sc.hasPending { assert sc.pending + line == line; }
  }

  /** The exception is real: an empty line after a continuation ends the join
      although the joined text still ends on an open caret. */
  lemma EmptyLineEndsJoin()
    ensures var sc := Feed(NEW_SCANNER, "^").0;
      && sc == Scanner("^", true, false, 0)
      && QuoteRun(Unquoted, sc.pending + "") == Escaped
      && !HoldsBack(sc, "") && Feed(sc, "").0.pending == ""
  {
    QuoteShort(Unquoted, '^', '^');
    assert "^" + "" == "^" && "" + "^" == "^";
    assert !IsBatchComment("^") by {
      LowerChars("^");
      assert TrimSpace("^") == "^";
      RemByChars(TrimAt(Lower("^")));
    }
  }

  // ----- The first physical line decides about comments -----

  lemma RemByChars(w: string)
    ensures IsRem(w) <==> |w| >= 3 && w[0] == 'r' && w[1] == 'e' && w[2] == 'm' &&
                          (|w| == 3 || w[3] == ' ' || w[3] == '\t')
  {
    if |w| >= 4 { assert w[..4] == [w[0], w[1], w[2], w[3]]; }
  }

  /** Text that starts with `p`, whose last character is a caret, is a comment
      exactly when `p` is: the caret is no part of a comment marker. */
  lemma CommentByPrefix(p: string, z: string)
    requires 0 < |p| <= |z| && z[..|p|] == p && p[|p| - 1] == '^'
    ensures IsCommentText(z) == IsCommentText(p)
  {
    assert forall i :: 0 <= i < |p| ==> z[i] == p[i];
    if |p| >= 2 { assert z[..2] == p[..2]; }
    LowerChars(z);
    LowerChars(p);
    RemByChars(TrimAt(Lower(z)));
    RemByChars(TrimAt(Lower(p)));
  }

  lemma {:induction false} CaretPosition(s: string) returns (m: nat)
    requires CommentContinues(s)
    ensures m < |s| && s[m] == '^'
  {
    if s[|s| - 1] in {' ', '\t'} {
      m := CaretPosition(s[..|s| - 1]);
    } else {
      m := |s| - 1;
    }
  }

  lemma {:induction false} TrimLeftConcat(s: string, t: string, m: nat)
    requires m < |s| && !IsSpace(s[m])
    ensures TrimLeft(s + t) == TrimLeft(s) + t
    ensures exists k :: 0 <= k < |TrimLeft(s)| && TrimLeft(s)[k] == s[m]
  {
    if IsSpace(s[0]) {
      TrimLeftConcat(s[1..], t, m - 1);
      assert (s + t)[1..] == s[1..] + t;
    } else {
      assert TrimLeft(s)[m] == s[m];
    }
  }

  lemma {:induction false} TrimRightKeeps(u: string, m: nat)
    requires m < |u| && !IsSpace(u[m])
    ensures |TrimRight(u)| > m && TrimRight(u)[..m + 1] == u[..m + 1]
  {
    if IsSpace(u[|u| - 1]) {
      TrimRightKeeps(u[..|u| - 1], m);
      assert u[..|u| - 1][..m + 1] == u[..m + 1];
    }
  }

  /** Text appended after a continuation caret never turns a command into a
      comment or back. */
  lemma CommentStable(s: string, t: string)
    requires CommentContinues(s)
    ensures IsBatchComment(s + t) == IsBatchComment(s)
  {
    var m := CaretPosition(s);
    TrimLeftConcat(s, t, m);
    var u := TrimLeft(s);
    var k :| 0 <= k < |u| && u[k] == '^';
    TrimRightKeeps(u, k);
    TrimRightKeeps(u + t, k);
    var p := u[..k + 1];
    assert (u + t)[..k + 1] == p;
    CommentByPrefix(p, TrimSpace(s));
    CommentByPrefix(p, TrimSpace(s + t));
  }

  lemma {:induction false} CaretAfter(s: string, t: string)
    requires CommentContinues(t)
    ensures CommentContinues(s + t)
  {
    if t[|t| - 1] in {' ', '\t'} {
      CaretAfter(s, t[..|t| - 1]);
      assert (s + t)[..|s + t| - 1] == s + t[..|t| - 1];
    }
  }

  lemma {:induction false} EscapedEndsInCaret(q: QuoteState, s: string)
    requires |s| > 0 && QuoteRun(q, s) == Escaped
    ensures s[|s| - 1] == '^'
    decreases |s|
  {
    if |s| > 1 {
      EscapedEndsInCaret(QuoteStep(q, s[0]), s[1..]);
    } else {
      assert s[1..] == "";
    }
  }

  /** Every line keeps the scanner's invariant, and whether a logical line is a
      comment was decided by its first physical line. */
  lemma FeedOk(sc: Scanner, line: string)
    requires ScannerOk(sc)
    ensures ScannerOk(Feed(sc, line).0)
    ensures IsBatchComment(sc.pending + line) == IsComment(sc, line)
  {
    hide IsBatchComment, QuoteRun, LineTokens;
    if sc.hasPending {
      CommentStable(sc.pending, line);
    } else {
      assert sc.pending + line == line;
    }
    if HoldsBack(sc, line) {
      if !IsComment(sc, line) {
        HeldBackExactly(sc, line);
        EscapedEndsInCaret(if sc.hasPending then Escaped else Unquoted, line);
      }
      CaretAfter(sc.pending, line);
    }
  }

  // ----- Whole scripts -----

  /** Feeds the lines of a script, carriage returns removed, and completes it. */
  function ReadAll(sc: Scanner, lines: seq<string>): (Scanner, seq<seq<Token>>)
    decreases |lines|
  {
    if lines == [] then
      var (done, tokens) := Finish(sc);
      (done, [tokens])
    else
      var (next, tokens) := Feed(sc, DropEndWhile(lines[0], {'\r'}));
      var (done, more) := ReadAll(next, lines[1..]);
      (done, [tokens] + more)
  }

  function Flatten(parts: seq<seq<Token>>): seq<Token> {
    if |parts| == 0 then [] else parts[0] + Flatten(parts[1..])
  }

  function ReadEntries(parts: seq<seq<Token>>): seq<Entry> {
    if |parts| == 0 then [] else AllEntries(parts[0], true) + ReadEntries(parts[1..])
  }

  method ParseScript(lines: seq<string>) returns (entries: seq<Entry>)
    ensures entries == ReadEntries(ReadAll(NEW_SCANNER, lines).1)
  {
    hide Feed, Finish, ReadAll, ReadEntries, AllEntries, IsComment, DropEndWhile;
    var scanner := new ScriptScanner();
    entries := [];
    var i := 0;
    assert lines[0..] == lines;
    while i < |lines|
      invariant 0 <= i <= |lines| && fresh(scanner) && ScannerOk(scanner.View())
      invariant ReadEntries(ReadAll(NEW_SCANNER, lines).1) ==
                entries + ReadEntries(ReadAll(scanner.View(), lines[i..]).1)
    {
      var line := DropEndWhile(lines[i], {'\r'});
      FeedOk(scanner.View(), line);
      assert lines[i..][1..] == lines[i + 1..];
      UnfoldRead(scanner.View(), lines[i..]);
      var found := scanner.FeedBatch(line);
      entries := entries + found;
      i := i + 1;
    }
    UnfoldRead(scanner.View(), lines[i..]);
    var found := scanner.Flush();
    entries := entries + found;
  }

  lemma UnfoldRead(sc: Scanner, lines: seq<string>)
    ensures lines == [] ==> ReadEntries(ReadAll(sc, lines).1) == AllEntries(Finish(sc).1, true)
    ensures lines != [] ==>
      var (next, tokens) := Feed(sc, DropEndWhile(lines[0], {'\r'}));
      ReadEntries(ReadAll(sc, lines).1) == AllEntries(tokens, true) + ReadEntries(ReadAll(next, lines[1..]).1)
  {
    if lines == [] {
      var part := Finish(sc).1;
      assert [part][1..] == [];
      assert ReadEntries([part]) == AllEntries(part, true) + ReadEntries([]);
    } else {
      var (next, tokens) := Feed(sc, DropEndWhile(lines[0], {'\r'}));
      var more := ReadAll(next, lines[1..]).1;
      assert ([tokens] + more)[1..] == more;
    }
  }

  lemma {:induction false} DepthConcat(depth: int, a: seq<Token>, b: seq<Token>)
    ensures DepthAfter(depth, a + b) == DepthAfter(DepthAfter(depth, a), b)
    decreases |b|
  {
    if |b| == 0 {
      assert a + b == a;
    } else {
      var last := |b| - 1;
      DepthConcat(depth, a, b[..last]);
      assert (a + b)[..|a + b| - 1] == a + b[..last];
    }
  }

  lemma NeverNegativeConcat(depth: int, a: seq<Token>, b: seq<Token>)
    requires NeverNegative(depth, a) && NeverNegative(DepthAfter(depth, a), b)
    ensures NeverNegative(depth, a + b)
  {
    forall n | 0 <= n <= |a + b| ensures DepthAfter(depth, (a + b)[..n]) >= 0 {
      if n <= |a| {
        assert (a + b)[..n] == a[..n];
      } else {
        assert (a + b)[..n] == a + b[..n - |a|];
        DepthConcat(depth, a, b[..n - |a|]);
      }
    }
  }

  lemma LineDepth(depth: nat, line: string)
    ensures var (tokens, after) := LineTokens(depth, line);
      NeverNegative(depth, tokens) && DepthAfter(depth, tokens) == after
  {
    LineParens(depth, line);
  }

  /** Over a whole script the emitted parentheses never close more than is open,
      and their excess is the scanner's block depth. */
  lemma {:induction false} ScriptParens(sc: Scanner, lines: seq<string>)
    ensures var (done, parts) := ReadAll(sc, lines);
      && NeverNegative(sc.blockDepth, Flatten(parts))
      && DepthAfter(sc.blockDepth, Flatten(parts)) == done.blockDepth
    decreases |lines|
  {
    var (done, parts) := ReadAll(sc, lines);
    if lines == [] {
      LineDepth(sc.blockDepth, sc.pending);
      assert parts[1..] == [] && Flatten(parts) == parts[0] + [] == parts[0];
    } else {
      var line := DropEndWhile(lines[0], {'\r'});
      var (next, tokens) := Feed(sc, line);
      LineDepth(sc.blockDepth, sc.pending + line);
      ScriptParens(next, lines[1..]);
      var more := ReadAll(next, lines[1..]).1;
      assert parts[1..] == more;
      DepthConcat(sc.blockDepth, tokens, Flatten(more));
      NeverNegativeConcat(sc.blockDepth, tokens, Flatten(more));
    }
  }
}
