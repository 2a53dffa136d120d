/**
  What an inserted redirection means for a script: which lines and scripts report
  the same packages with it as without it.
 */
module BatchTransparency {
  import opened Basics
  import opened CommandTracking
  import opened BatchText
  import opened BatchLexer
  import opened BatchRedirection
  import opened BatchInsertion
  import opened ChocoParser
  import opened BatchScript

  // ----- The insertion makes no comment -----

  /** The comment test, character by character. */
  predicate RemAt(w: string, o: nat) {
    && |w| >= o + 3
    && LowerChar(w[o]) == 'r' && LowerChar(w[o + 1]) == 'e' && LowerChar(w[o + 2]) == 'm'
    && (|w| == o + 3 || w[o + 3] == ' ' || w[o + 3] == '\t')
  }

  function Marker(w: string): nat { if |w| > 0 && w[0] == '@' then 1 else 0 }

  predicate IsColons(w: string) { |w| >= 2 && w[0] == ':' && w[1] == ':' }

  lemma CommentChars(w: string)
    ensures IsCommentText(w) <==> IsColons(w) || RemAt(w, Marker(w))
  {
    LowerChars(w);
    RemByChars(TrimAt(Lower(w)));
    if |w| >= 2 { assert w[..2] == [w[0], w[1]]; }
  }

  lemma {:induction false} TrimRightPrefix(u: string)
    ensures |TrimRight(u)| <= |u| && TrimRight(u) == u[..|TrimRight(u)|]
  {
    if |u| > 0 && IsSpace(u[|u| - 1]) {
      TrimRightPrefix(u[..|u| - 1]);
    }
  }

  lemma {:induction false} TrimLeftSpaces(s: string, t: string)
    requires forall i :: 0 <= i < |s| ==> IsSpace(s[i])
    ensures TrimLeft(s + t) == TrimLeft(t)
  {
    if |s| == 0 {
      assert s + t == t;
    } else {
      AppendDrop(s, t, 1);
      TrimLeftSpaces(s[1..], t);
    }
  }

  /** Characters that only ever become part of a word. */
  predicate IsInert(ch: char) { ch !in {'"', '^', '%', '<', '>', '(', ')', '|', '&'} }

  lemma InertStep(st: Lex, u: string)
    requires |u| > 0 && IsInert(u[0])
    ensures Decide(st, u) == (if IsBlank(u[0]) && !st.argQuote then EndWord else Add([u[0]], [u[0]], false), 1)
  {
  }

  /** After inert text that does not end on a blank, a word is being read. */
  lemma {:induction false} InertWord(st0: Lex, s: string, rest: string, st: Lex)
    requires |s| > 0 && Reaches(st0, s + rest, |s|, st)
    requires (forall i :: 0 <= i < |s| ==> IsInert(s[i])) && !IsBlank(s[|s| - 1])
    ensures st.word.Some?
    decreases |s|
  {
    hide Decide;
    InertStep(st0, s + rest);
    AppendDrop(s, rest, 1);
    var next := Perform(st0, Decide(st0, s + rest).0);
    if |s| > 1 {
      InertWord(next, s[1..], rest, st);
    }
  }

  /** Text that is white space and then nothing but a comment marker. */
  lemma {:induction false} MarkerIsInert(s: string, p: string)
    requires p == TrimLeft(s) && Marker(p) + 3 == |p| && RemAt(p, Marker(p))
    ensures |s| >= |p| > 0 && s[|s| - 1] == p[|p| - 1] && forall i :: 0 <= i < |s| ==> IsInert(s[i])
  {
    if IsSpace(s[0]) {
      MarkerIsInert(s[1..], p);
    }
  }

  lemma InsertedText(r: Redirection, b': char, rest: string)
    requires r.Valid()
    ensures var y := Then(r.Text(), b', rest);
      && |y| > 0 && !IsSpace(y[0]) && (IsDigit(y[0]) || y[0] in {'*', '<', '>'})
  {
    RestShape(r);
    if r.handle == "" { assert r.Text()[0] == r.Rest()[0]; }
  }

  lemma TrimLeftOf(y: string)
    requires |y| > 0 && !IsSpace(y[0])
    ensures TrimLeft(y) == y
  {
  }

  /** In front of the first word the redirection hides any comment marker. */
  lemma LeadingInsertion(s: string, rest: string, r: Redirection, b: char, b': char)
    requires IsBlank(b) && r.Valid() && forall i :: 0 <= i < |s| ==> IsSpace(s[i])
    ensures !IsBatchComment(s + Insert(r, b, b', rest))
  {
    hide TrimLeft, TrimRight, IsCommentText, Redirection.Text;
    var y := Then(r.Text(), b', rest);
    InsertedText(r, b', rest);
    assert s + Insert(r, b, b', rest) == (s + [b]) + y;
    TrimLeftSpaces(s + [b], y);
    assert TrimLeft(y) == y by { TrimLeftOf(y); }
    TrimRightKeeps(y, 0);
    assert TrimSpace((s + [b]) + y)[0] == y[0];
    CommentChars(TrimSpace((s + [b]) + y));
  }

  /** Both lines, trimmed, begin with the trimmed text before the insertion. */
  lemma TrimmedStart(s: string, t: string, m: nat, k: nat)
    requires m < |s| && !IsSpace(s[m]) && k < |TrimLeft(s) + t| && !IsSpace((TrimLeft(s) + t)[k])
    ensures var w := TrimSpace(s + t); k < |w| <= |TrimLeft(s) + t| && w == (TrimLeft(s) + t)[..|w|]
  {
    TrimLeftConcat(s, t, m);
    TrimRightKeeps(TrimLeft(s) + t, k);
    TrimRightPrefix(TrimLeft(s) + t);
  }

  /** Text that consists of a comment marker leaves no room between words. */
  lemma MarkerIsWord(depth: nat, s: string, rest: string, st: Lex)
    requires Reaches(NewLex(depth), s + rest, |s|, st) && AtRest(st)
    ensures var p := TrimLeft(s); !(RemAt(p, Marker(p)) && |p| == Marker(p) + 3)
  {
    hide Reaches;
    var p := TrimLeft(s);
    if RemAt(p, Marker(p)) && |p| == Marker(p) + 3 {
      MarkerIsInert(s, p);
      InertWord(NewLex(depth), s, rest, st);
    }
  }

  lemma InnerInsertion(depth: nat, s: string, rest: string, st: Lex, r: Redirection, b: char, b': char, m: nat)
    requires IsBlank(b) && r.Valid() && m < |s| && !IsSpace(s[m])
    requires Reaches(NewLex(depth), s + rest, |s|, st) && AtRest(st)
    ensures IsBatchComment(s + Insert(r, b, b', rest)) <==> IsCommentText(TrimLeft(s))
  {
    hide Reaches, IsCommentText, Redirection.Text, TrimLeft, TrimRight;
    var p, x := TrimLeft(s), Insert(r, b, b', rest);
    InsertedText(r, b', rest);
    assert x[0] == b && x[1] == Then(r.Text(), b', rest)[0];
    TrimmedStart(s, x, m, |p| + 1);
    var v := TrimSpace(s + x);
    assert v[|p|] == b && forall i :: 0 <= i < |p| ==> v[i] == p[i];
    CommentChars(v);
    CommentChars(p);
    LeftNonEmpty(s, m);
    MarkerIsWord(depth, s, rest, st);
  }

  lemma {:induction false} LeftNonEmpty(s: string, m: nat)
    requires m < |s| && !IsSpace(s[m])
    ensures |TrimLeft(s)| > 0 && !IsSpace(TrimLeft(s)[0])
  {
    if IsSpace(s[0]) {
      LeftNonEmpty(s[1..], m - 1);
    }
  }

  /** Behind the insertion a line is a comment exactly when the text in front of the
      insertion is one already. */
  lemma CommentExactly(depth: nat, s: string, rest: string, st: Lex, r: Redirection, b: char, b': char)
    requires IsBlank(b) && r.Valid() && Reaches(NewLex(depth), s + rest, |s|, st) && AtRest(st)
    ensures IsBatchComment(s + Insert(r, b, b', rest)) <==> IsCommentText(TrimLeft(s))
  {
    hide IsBatchComment, IsCommentText, Reaches, TrimLeft;
    if forall i :: 0 <= i < |s| ==> IsSpace(s[i]) {
      LeadingInsertion(s, rest, r, b, b');
      TrimLeftSpaces(s, "");
      assert s + "" == s;
      CommentChars("");
      assert TrimLeft("") == "" by { EmptyTrim(); }
    } else {
      var m :| 0 <= m < |s| && !IsSpace(s[m]);
      InnerInsertion(depth, s, rest, st, r, b, b', m);
    }
  }

  lemma EmptyTrim()
    ensures TrimLeft("") == ""
  {
  }

  /** Then the line was a comment before, too. */
  lemma CommentBefore(depth: nat, s: string, rest: string, st: Lex)
    requires Reaches(NewLex(depth), s + rest, |s|, st) && AtRest(st) && IsCommentText(TrimLeft(s))
    ensures IsBatchComment(s + rest)
  {
    hide Reaches, IsCommentText, TrimLeft, TrimRight;
    var p := TrimLeft(s);
    CommentChars(p);
    MarkerIsWord(depth, s, rest, st);
    var k := if IsColons(p) then 1 else Marker(p) + 2;
    var m := LeftIsPart(s);
    CommentChars(TrimSpace(s + rest));
    TrimmedStart(s, rest, m, k);
  }

  lemma {:induction false} LeftIsPart(s: string) returns (m: nat)
    requires TrimLeft(s) != ""
    ensures m < |s| && !IsSpace(s[m])
  {
    if IsSpace(s[0]) {
      m := LeftIsPart(s[1..]);
      m := m + 1;
    } else {
      m := 0;
    }
  }

  lemma InsertionMakesNoComment(depth: nat, s: string, rest: string, st: Lex, r: Redirection, b: char, b': char)
    requires IsBlank(b) && r.Valid() && !IsBatchComment(s + rest)
    requires Reaches(NewLex(depth), s + rest, |s|, st) && AtRest(st)
    ensures !IsBatchComment(s + Insert(r, b, b', rest))
  {
    hide IsBatchComment, IsCommentText, Reaches, TrimLeft;
    CommentExactly(depth, s, rest, st, r, b, b');
    if IsCommentText(TrimLeft(s)) {
      CommentBefore(depth, s, rest, st);
    }
  }

  // ----- Lines of white space -----

  predicate Spacey(tokens: seq<Token>) { forall i :: 0 <= i < |tokens| ==> AllSpace(tokens[i].text) }

  lemma {:induction false} TrimmedAway(s: string)
    ensures TrimSpace(s) == "" ==> AllSpace(s)
  {
    if m :| 0 <= m < |s| && !IsSpace(s[m]) {
      assert s + "" == s;
      LeftNonEmpty(s, m);
      TrimRightKeeps(TrimLeft(s), 0);
    }
  }

  lemma {:induction false} SpaceRun(st: Lex, rest: string)
    requires AllSpace(rest) && Spacey(st.tokens) && (st.word.Some? ==> AllSpace(st.word.value.text))
    ensures Spacey(Run(st, rest).tokens) && Run(st, rest).depth == st.depth
    decreases |rest|
  {
    if |rest| > 0 {
      InertStep(st, rest);
      hide Decide;
      var action := Decide(st, rest).0;
      SpaceRun(Perform(st, action), rest[1..]);
    }
  }

  lemma {:induction false} BaseOfSpaces(s: string)
    requires AllSpace(s)
    ensures BaseName(s) == s
  {
    if |s| > 0 {
      BaseOfSpaces(s[..|s| - 1]);
    }
  }

  lemma SpacesAreNoCommand(s: string)
    requires AllSpace(s)
    ensures CommandName(s) !in {"cinst", "cup", "choco"}
  {
    hide Lower, BaseName;
    BaseOfSpaces(s);
    LowerChars(s);
    var w := Lower(s);
    assert TrimAt(s) == s;
    if |w| > 0 {
      assert |w| >= 4 ==> w[|w| - 4..][3] == w[|w| - 1];
    }
    assert TrimExe(w) == w;
    assert "cinst"[0] == "cup"[0] == "choco"[0] == 'c';
  }

  lemma SpaceyReportsNothing(tokens: seq<Token>)
    requires Spacey(tokens)
    ensures AllEntries(tokens, true) == []
  {
    hide CommandName;
    var f := Reporter(tokens, Shapes(tokens), true);
    forall i: nat | 0 <= i < |tokens| ensures f(i) == [] {
      SpacesAreNoCommand(tokens[i].text);
    }
    FlatMapSkips(f, 0, |tokens|);
  }

  // ----- A word behind an open condition -----

  lemma {:induction false} FlatMapSame(f: nat -> seq<Entry>, g: nat -> seq<Entry>, n: nat)
    requires forall k: nat :: k < n ==> f(k) == g(k)
    ensures FlatMap(f, n) == FlatMap(g, n)
  {
    if n > 0 {
      FlatMapSame(f, g, n - 1);
    }
  }

  /** Between a command word and an open `if` condition there is a separator. */
  lemma {:induction false} SeparatorBetween(line: seq<Shape>, i: nat, n: nat) returns (m: nat)
    requires i < n <= |line| && IsCommandWord(true, line, i) && Track(true, line, n).ReadsIfCondition()
    ensures i < m < n && line[m].IsSeparator()
  {
    hide Consume, Track;
    TrackOnce(line, i);
    CommandWordIdles(Track(true, line, i), line, i);
    if forall k :: i < k < n ==> !line[k].IsSeparator() {
      if i + 1 < n {
        SkipWords(true, line, i + 1, n);
      }
      assert false;
    }
    m :| i < m < n && line[m].IsSeparator();
  }

  lemma TrackOnce(line: seq<Shape>, i: nat)
    requires i < |line|
    ensures Track(true, line, i + 1) == Consume(Track(true, line, i), line, i).0
    ensures IsCommandWord(true, line, i) == Consume(Track(true, line, i), line, i).1
  {
  }

  /** Arguments end at a separator, so what comes behind it does not matter. */
  lemma {:induction false} ArgsIgnoreTail(
      tokens: seq<Token>, extra: Token, j: nat, m: nat, ids: seq<string>, version: string)
    requires j <= m < |tokens| && !SepOf(tokens[m]).NoSep?
    ensures ParseArgs(tokens + [extra], true, j, ids, version) == ParseArgs(tokens, true, j, ids, version)
    decreases m - j
  {
    hide SepOf, NormalizeVersion, NormalizePackageID, SplitOption;
    var more := tokens + [extra];
    assert more[j] == tokens[j] && more[m] == tokens[m];
    if IsArgument(tokens, j) {
      assert more[j + 1] == tokens[j + 1];
      if IsOption(tokens[j].text) {
        var (option, inline) := SplitOption(tokens[j].text, {'"'});
        var takesNext := inline.None? && option in OPTIONS_WITH_VALUE && IsArgument(tokens, j + 1);
        var value := if takesNext then Some(tokens[j + 1].text) else inline;
        ArgsIgnoreTail(tokens, extra, if takesNext then j + 2 else j + 1, m, ids,
                       if option in {"version"} && value.Some? then NormalizeVersion(value.value) else version);
      } else {
        ArgsIgnoreTail(tokens, extra, j + 1, m, ids + OptionSeq(NormalizePackageID(tokens[j].text)), version);
      }
    }
  }

  lemma SeparatorIsNoVerb(t: Token)
    requires !SepOf(t).NoSep?
    ensures Lower(t.text) !in {"install", "upgrade"}
  {
    LowerChars(t.text);
  }

  lemma EntriesIgnoreTail(tokens: seq<Token>, extra: Token, i: nat, m: nat)
    requires i < m < |tokens| && !SepOf(tokens[m]).NoSep?
    ensures EntriesAt(tokens + [extra], true, i) == EntriesAt(tokens, true, i)
  {
    hide SepOf, CommandName, Lower, ParseArgs;
    var more := tokens + [extra];
    assert more[i] == tokens[i] && more[i + 1] == tokens[i + 1];
    SeparatorIsNoVerb(tokens[m]);
    var a := ArgStart(tokens, i);
    assert ArgStart(more, i) == a;
    if a.Some? {
      ArgsIgnoreTail(tokens, extra, a.value, m, [], "");
    }
  }

  /** A word that starts with a blank and goes on like a handle is no command. */
  lemma BlankIsNoCommand(text: string)
    requires |text| > 0 && IsBlank(text[0]) && forall i :: 0 < i < |text| ==> IsDigit(text[i]) || text[i] == '*'
    ensures CommandName(text) !in {"cinst", "cup", "choco"}
  {
    hide Lower, BaseName;
    NoSlashBase(text);
    LowerChars(text);
    var w := Lower(text);
    assert TrimAt(text) == text;
    assert |w| >= 4 ==> w[|w| - 4..][3] == w[|w| - 1];
    assert TrimExe(w) == w;
    assert "cinst"[0] == "cup"[0] == "choco"[0] == 'c';
  }

  lemma {:induction false} NoSlashBase(s: string)
    requires forall i :: 0 <= i < |s| ==> s[i] !in {'\\', '/'}
    ensures BaseName(s) == s
  {
    if |s| > 0 {
      NoSlashBase(s[..|s| - 1]);
    }
  }

  /** What is reported at position i, when it is a command word or not. */
  lemma SameReport(tokens: seq<Token>, extra: Token, i: nat)
    requires i < |tokens| && TrackerOf(tokens).ReadsIfCondition()
    ensures var more := tokens + [extra];
      Reporter(more, Shapes(more), true)(i) == Reporter(tokens, Shapes(tokens), true)(i)
  {
    hide Track, IsCommandWord, EntriesAt, ShapeOf;
    var more := tokens + [extra];
    var line, longer := Shapes(tokens), Shapes(more);
    assert forall k :: 0 <= k < |tokens| ==> longer[k] == line[k];
    SameCommandWord(line, longer, i);
    if IsCommandWord(true, line, i) {
      var m := SeparatorBetween(line, i, |tokens|);
      SeparatorShown(tokens, m);
      EntriesIgnoreTail(tokens, extra, i, m);
    }
  }

  lemma SeparatorShown(tokens: seq<Token>, m: nat)
    requires m < |tokens|
    ensures Shapes(tokens)[m].IsSeparator() <==> !SepOf(tokens[m]).NoSep?
  {
  }

  /** Such a word read while an `if` condition is open reports nothing and changes
      no other report. */
  lemma ConditionWordIsSilent(tokens: seq<Token>, extra: Token)
    requires TrackerOf(tokens).ReadsIfCondition() && CommandName(extra.text) !in {"cinst", "cup", "choco"}
    ensures AllEntries(tokens + [extra], true) == AllEntries(tokens, true)
  {
    hide TrackerOf, CommandName, IsCommandWord, ShapeOf, ParseArgs;
    var n, more := |tokens|, tokens + [extra];
    var f, g := Reporter(tokens, Shapes(tokens), true), Reporter(more, Shapes(more), true);
    forall i: nat | i < n ensures g(i) == f(i) {
      SameReport(tokens, extra, i);
    }
    FlatMapSame(g, f, n);
    assert more[n] == extra && g(n) == [];
  }

  lemma SameCommandWord(line: seq<Shape>, longer: seq<Shape>, i: nat)
    requires i < |line| <= |longer| && forall k :: 0 <= k < |line| ==> longer[k] == line[k]
    ensures IsCommandWord(true, longer, i) == IsCommandWord(true, line, i)
  {
    hide Consume, Track;
    TrackPrefix(true, line, longer, i);
    ConsumePrefix(Track(true, line, i), line, longer, i);
  }

  // ----- Packages -----

  /** A line read as a command, whether or not it is a comment. */
  function Read(depth: nat, line: string): Lex { Run(NewLex(depth), line) }

  /** What is reported for a line that is no comment is what reading it gives. */
  lemma PlainLine(depth: nat, line: string)
    requires !IsBatchComment(line)
    ensures AllEntries(LineTokens(depth, line).0, true) == AllEntries(Read(depth, line).tokens, true)
    ensures LineTokens(depth, line).1 == Read(depth, line).depth
  {
    hide Run, IsBatchComment, AllEntries, TrimSpace;
    if TrimSpace(line) == "" {
      TrimmedAway(line);
      SpaceRun(NewLex(depth), line);
      SpaceyReportsNothing(Read(depth, line).tokens);
      SpaceyReportsNothing([]);
    }
  }

  lemma CommentTokens(depth: nat, line: string)
    requires IsBatchComment(line)
    ensures AllEntries(LineTokens(depth, line).0, true) == [] && LineTokens(depth, line).1 == depth
  {
    SpaceyReportsNothing([]);
  }

  /** With or without the insertion, reading a line as a command gives the same
      packages and leaves the same blocks open. */
  lemma ReadingUnchanged(depth: nat, s: string, rest: string, st: Lex, r: Redirection, b: char, b': char)
    requires IsBlank(b) && IsBlank(b') && r.Valid() && Reaches(NewLex(depth), s + rest, |s|, st) && AtRest(st)
    ensures var u, v := Read(depth, s + rest), Read(depth, s + Insert(r, b, b', rest));
      AllEntries(v.tokens, true) == AllEntries(u.tokens, true) && v.depth == u.depth
  {
    hide Run, AllEntries, Insert, Reaches, TrackerOf;
    Insertion(NewLex(depth), s, rest, st, r, b, b');
    if Dangles(NewLex(depth), s, rest, st) {
      DanglingPackages(depth, s, st, Read(depth, s + Insert(r, b, b', rest)), r, b);
    }
  }

  /** The end of the story.  A redirection put anywhere between the words of a line
      and outside quotes leaves the packages reported and the blocks left open as
      they were, unless the line is a comment whose marker does not stand in front
      of the insertion: it is then read as a command, and the report changes exactly
      if that reading reports a package or leaves other blocks open. */
  lemma PackagesUnchanged(depth: nat, s: string, rest: string, st: Lex, r: Redirection, b: char, b': char)
    requires IsBlank(b) && IsBlank(b') && r.Valid() && Reaches(NewLex(depth), s + rest, |s|, st) && AtRest(st)
    ensures var (before, after) := (LineTokens(depth, s + rest), LineTokens(depth, s + Insert(r, b, b', rest)));
      AllEntries(after.0, true) == AllEntries(before.0, true) && after.1 == before.1 <==>
        || !IsBatchComment(s + rest)
        || IsCommentText(TrimLeft(s))
        || (AllEntries(Read(depth, s + rest).tokens, true) == [] && Read(depth, s + rest).depth == depth)
  {
    hide IsBatchComment, IsCommentText, Reaches, TrimLeft, LineTokens, Insert, Read, AllEntries;
    var u, v := s + rest, s + Insert(r, b, b', rest);
    CommentExactly(depth, s, rest, st, r, b, b');
    ReadingUnchanged(depth, s, rest, st, r, b, b');
    if IsBatchComment(u) {
      CommentTokens(depth, u);
    } else {
      PlainLine(depth, u);
      InsertionMakesNoComment(depth, s, rest, st, r, b, b');
    }
    if IsBatchComment(v) {
      CommentTokens(depth, v);
    } else {
      PlainLine(depth, v);
    }
  }

  /** The word a dangling caret makes of the blank and the handle. */
  lemma DanglingPackages(depth: nat, s: string, st: Lex, after: Lex, r: Redirection, b: char)
    requires IsBlank(b) && r.Valid() && Reaches(NewLex(depth), s + "", |s|, st) && AtRest(st)
    requires TrackerOf(st.tokens).ReadsIfCondition()
    requires AddsWord(Run(NewLex(depth), s + ""), after, [b] + r.handle)
    ensures AllEntries(after.tokens, true) == AllEntries(Run(NewLex(depth), s + "").tokens, true)
  {
    hide Run, AllEntries, Reaches, TrackerOf;
    RunReaches(NewLex(depth), s + "", |s|, st);
    AppendDrop(s, "", |s|);
    assert s[|s|..] + "" == "";
    RunEnd(st);
    var n := |st.tokens|;
    var extra := after.tokens[n];
    assert after.tokens == st.tokens + [extra];
    BlankIsNoCommand(extra.text);
    ConditionWordIsSilent(st.tokens, extra);
  }
}
