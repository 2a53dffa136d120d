/**
  Inserting a blank-delimited redirection wherever the tokenizer stands between
  words and outside quotes.
 */
module BatchInsertion {
  import opened Basics
  import opened CommandTracking
  import opened BatchText
  import opened BatchLexer
  import opened BatchRedirection

  /** The redirection with a blank on either side, in front of `rest`. */
  function Insert(r: Redirection, b: char, b': char, rest: string): string {
    [b] + Then(r.Text(), b', rest)
  }

  // ----- Where an unfinished redirection ends -----

  lemma {:induction false} QuotedSwallows(s: string, inBlock: bool)
    requires forall i :: 0 <= i < |s| ==> s[i] != '"'
    ensures TargetLength(s, true, inBlock) == |s|
  {
    if |s| > 0 {
      QuotedSwallows(s[1..], inBlock);
    }
  }

  /** A target that reaches the end of the line takes nothing more, or the
      inserted handle, or everything. */
  lemma {:induction false} TargetInto(s: string, b: char, handle: string, y: string, inQuote: bool, inBlock: bool)
    requires IsBlank(b) && TargetLength(s, inQuote, inBlock) == |s|
    requires forall i :: 0 <= i < |handle| ==> IsPlain(handle[i])
    requires |y| > 0 && (y[0] == '<' || y[0] == '>') && forall i :: 0 <= i < |y| ==> y[i] != '"'
    ensures var x := [b] + (handle + y);
      TargetLength(s + x, inQuote, inBlock) in {|s|, |s| + 1 + |handle|, |s + x|}
    decreases |s|
  {
    hide TargetLength;
    var x := [b] + (handle + y);
    TargetStep(s + x, inQuote, inBlock);
    if |s| == 0 {
      assert s + x == x;
      if inQuote {
        QuotedSwallows(x, inBlock);
      }
    } else {
      TargetStep(s, inQuote, inBlock);
      AppendDrop(s, x, 1);
      if s[0] == '"' {
        TargetInto(s[1..], b, handle, y, !inQuote, inBlock);
      } else if inQuote {
        TargetInto(s[1..], b, handle, y, true, inBlock);
      } else if s[0] == '^' {
        if |s| == 1 {
          assert (s + x)[2..] == handle + y;
          PlainTarget(handle, y, inBlock);
        } else {
          AppendDrop(s, x, 2);
          TargetInto(s[2..], b, handle, y, false, inBlock);
        }
      } else {
        TargetInto(s[1..], b, handle, y, false, inBlock);
      }
    }
  }

  lemma RestShape(r: Redirection)
    requires r.Valid()
    ensures |r.Rest()| > 0 && (r.Rest()[0] == '<' || r.Rest()[0] == '>')
    ensures forall i :: 0 <= i < |r.Rest()| ==> r.Rest()[i] != '"'
    ensures forall i :: 0 <= i < |r.handle| ==> IsPlain(r.handle[i])
  {
    assert r.Rest()[0] == r.op[0];
  }

  lemma InsertSplit(r: Redirection, b: char, b': char, rest: string)
    ensures Insert(r, b, b', rest) == [b] + (r.handle + Then(r.Rest(), b', rest))
  {
    ThenAssoc(r.handle, r.Rest(), b', rest);
  }

  lemma RedirectionParts(v: string, op: nat, gap: nat, inBlock: bool)
    requires |v| > 0 && op <= |v| && OperatorLength(v) == (op, false) && BlankLength(v[op..]) == gap
    ensures RedirectionLength(v, inBlock) == op + gap + TargetLength(v[op + gap..], false, inBlock)
  {
  }

  lemma Regroup(s: string, op: nat, b: char, tail: string)
    requires op <= |s|
    ensures s[op..] + ([b] + tail) == (s[op..] + [b]) + tail
    ensures (s + ([b] + tail))[op..] == s[op..] + ([b] + tail)
    ensures (s + ([b] + tail))[|s| + 1..] == tail
  {
  }

  /** The blanks behind a bare operator, and one more. */
  lemma BareGap(s: string, rest: string, op: nat, b: char, tail: string)
    requires op <= |s| && IsBlank(b) && |tail| > 0 && !IsBlank(tail[0])
    requires op + BlankLength((s + rest)[op..]) == |s|
    ensures BlankLength((s + ([b] + tail))[op..]) == |s| - op + 1
  {
    hide BlankLength;
    AppendDrop(s, rest, op);
    Regroup(s, op, b, tail);
    var gap := s[op..] + [b];
    forall i | 0 <= i < |gap| ensures IsBlank(gap[i]) {
      if i < |s| - op { assert IsBlank((s[op..] + rest)[i]); }
    }
    BlankGap(gap, tail);
  }

  /** Nothing but blanks follows the operator: the handle becomes the target. */
  lemma BareTakesHandle(s: string, rest: string, r: Redirection, b: char, b': char, inBlock: bool)
    requires |s| > 0 && IsBlank(b) && IsBlank(b') && r.Valid()
    requires var (op, dup) := OperatorLength(s + rest); !dup && op + BlankLength((s + rest)[op..]) == |s|
    ensures RedirectionLength(s + Insert(r, b, b', rest), inBlock) == |s| + 1 + |r.handle|
  {
    hide TargetLength, BlankLength, OperatorLength, RedirectionLength;
    var op := OperatorLength(s + rest).0;
    var y := Then(r.Rest(), b', rest);
    var tail := r.handle + y;
    InsertSplit(r, b, b', rest);
    RestShape(r);
    assert y[0] == r.Rest()[0];
    assert tail[0] == if r.handle == "" then y[0] else r.handle[0];
    OperatorMeets(s, rest, [b] + tail);
    BareGap(s, rest, op, b, tail);
    RedirectionParts(s + ([b] + tail), op, |s| - op + 1, inBlock);
    Regroup(s, op, b, tail);
    PlainTarget(r.handle, y, inBlock);
  }

  lemma RedirectionInto(s: string, rest: string, r: Redirection, b: char, b': char, inBlock: bool)
    requires |s| > 0 && IsBlank(b) && IsBlank(b') && r.Valid()
    requires RedirectionLength(s + rest, inBlock) == |s| && Unfinished(s, rest)
    ensures var n, x := RedirectionLength(s + Insert(r, b, b', rest), inBlock), Insert(r, b, b', rest);
      n == |s| || n == |s| + 1 + |r.handle| || (rest == "" && n == |s + x|)
  {
    hide TargetLength, BlankLength, OperatorLength;
    var op := OperatorLength(s + rest).0;
    var start := op + BlankLength((s + rest)[op..]);
    if start == |s| {
      BareTakesHandle(s, rest, r, b, b', inBlock);
    } else {
      var x, y := Insert(r, b, b', rest), Then(r.Rest(), b', rest);
      InsertSplit(r, b, b', rest);
      RestShape(r);
      assert y[0] == r.Rest()[0];
      OperatorMeets(s, rest, x);
      AppendDrop(s, rest, op);
      AppendDrop(s, x, op);
      BlanksMeet(s[op..], rest, x);
      AppendDrop(s, x, start);
      assert (s + rest)[start..] == s[start..];
      TargetInto(s[start..], b, r.handle, y, false, inBlock);
    }
  }

  // ----- The exceptional line end -----

  /** The line ends on a caret between words while an `if` condition is read: the
      caret would escape the blank in front of the redirection. */
  ghost predicate Dangles(st0: Lex, s: string, rest: string, st: Lex) {
    && rest == "" && |s| > 0 && s[|s| - 1] == '^'
    && Reaches(st0, s, |s| - 1, st)
    && TrackerOf(st.tokens).ReadsIfCondition()
  }

  lemma {:induction false} QuotedHandle(st: Lex, w: Word, handle: string, rest: string) returns (grown: Word)
    requires !st.inQuote && !st.argQuote && w.quoted
    requires forall i :: 0 <= i < |handle| ==> IsDigit(handle[i]) || handle[i] == '*'
    ensures grown.quoted && grown.text == w.text + handle
    ensures Run(st.(word := Some(w)), handle + rest) == Run(st.(word := Some(grown)), rest)
    decreases |handle|
  {
    if |handle| == 0 {
      grown := w;
      assert handle + rest == rest && w.text + handle == w.text;
    } else {
      var at, u := st.(word := Some(w)), handle + rest;
      assert Decide(at, u) == (Add([u[0]], [u[0]], false), 1);
      var next := Word(w.text + [u[0]], true, w.raw + [u[0]]);
      assert Perform(at, Add([u[0]], [u[0]], false)) == st.(word := Some(next));
      AppendDrop(handle, rest, 1);
      grown := QuotedHandle(st, next, handle[1..], rest);
      assert w.text + handle == next.text + handle[1..];
    }
  }

  /** Nothing changes but that one more word is read at the end. */
  predicate AddsWord(before: Lex, after: Lex, text: string) {
    && |after.tokens| == |before.tokens| + 1
    && after.tokens[..|before.tokens|] == before.tokens
    && after.tokens[|before.tokens|].text == text && after.tokens[|before.tokens|].literal
    && after.depth == before.depth
  }

  /** An escaped blank in front of it is a word of its own, with the handle. */
  lemma EscapedBlankEmitted(st: Lex, w: Word, r: Redirection, b': char)
    requires AtRest(st) && w.quoted && r.Valid() && IsBlank(b')
    ensures AddsWord(st, Run(st.(word := Some(w)), Then(r.Text(), b', "")), w.text + r.handle)
  {
    hide Run, RedirectionLength;
    var u := Then(r.Rest(), b', "");
    ThenAssoc(r.handle, r.Rest(), b', "");
    var grown := QuotedHandle(st, w, r.handle, u);
    var at := st.(word := Some(grown));
    RestShape(r);
    assert u[0] == r.Rest()[0];
    RestLength(r, b', "", st.depth > 0);
    RedirectionDecided(at, u);
    RunStep(at, u);
    assert u[|r.Rest()|..] == [b'] + "";
    BlankStep(Flush(at), b', "");
    RunEnd(Flush(at));
  }

  lemma RunStep(st: Lex, rest: string)
    requires |rest| > 0
    ensures var (action, n) := Decide(st, rest);
      Run(st, rest) == Run(Perform(st, action), rest[n..])
  {
  }

  lemma RunEnd(st: Lex)
    ensures Run(st, "") == Flush(st)
  {
  }

  // ----- Transparency -----

  /** Wherever an unfinished redirection ends, the rest of the insertion
      vanishes. */
  lemma LeftoverVanishes(st: Lex, s: string, rest: string, r: Redirection, b: char, b': char, n: nat)
    requires IsBlank(b) && IsBlank(b') && r.Valid() && AtRest(st)
    requires var v := s + Insert(r, b, b', rest);
      n == |s| || n == |s| + 1 + |r.handle| || (rest == "" && n == |v|)
    ensures n <= |s + Insert(r, b, b', rest)|
    ensures Run(st, (s + Insert(r, b, b', rest))[n..]) == Run(st, rest)
  {
    hide Run, Redirection.Rest, Redirection.Text, Insert;
    var x, more, y := Insert(r, b, b', rest), Then(r.Text(), b', rest), Then(r.Rest(), b', rest);
    InsertSplit(r, b, b', rest);
    if n == |s| {
      InsertTail(r, b, b', rest);
      AppendDrop(s, x, n);
      BlankStep(st, b, more);
      VanishesAtRest(st, r, b', rest);
    } else if n == |s| + 1 + |r.handle| {
      SuffixBehind(s, b, r.handle, y);
      RestStep(st, "", r, b', rest);
      BlankStep(st, b', rest);
    } else {
      assert (s + x)[n..] == "" == rest;
    }
  }

  lemma InsertTail(r: Redirection, b: char, b': char, rest: string)
    ensures Insert(r, b, b', rest) == [b] + Then(r.Text(), b', rest)
  {
  }

  lemma SuffixBehind(s: string, b: char, handle: string, y: string)
    ensures (s + ([b] + (handle + y)))[|s| + 1 + |handle|..] == y
  {
  }

  lemma SameRedirection(st: Lex, u: string, v: string)
    requires |u| > 0 && |v| > 0 && !st.argQuote
    ensures DecideRedirection(st, v) == (DecideRedirection(st, u).0, RedirectionLength(v, st.depth > 0))
  {
  }

  lemma UnfinishedVanishes(st0: Lex, s: string, rest: string, st: Lex, r: Redirection, b: char, b': char)
    requires |s| > 0 && IsBlank(b) && IsBlank(b') && r.Valid() && AtRest(st)
    requires !st0.inQuote && (s[0] == '<' || s[0] == '>') && Unfinished(s, rest)
    requires var (action, k) := Decide(st0, s + rest); k == |s| && Perform(st0, action) == st
    ensures Run(st0, s + Insert(r, b, b', rest)) == Run(st, rest)
  {
    hide Run, RedirectionLength, Decide, Unfinished, Insert;
    var v := s + Insert(r, b, b', rest);
    RedirectionDecided(st0, s + rest);
    RedirectionDecided(st0, v);
    SameRedirection(st0, s + rest, v);
    RedirectionInto(s, rest, r, b, b', st0.depth > 0);
    RunStep(st0, v);
    LeftoverVanishes(st, s, rest, r, b, b', RedirectionLength(v, st0.depth > 0));
  }

  lemma CaretAtEnd(st: Lex, r: Redirection, b: char, b': char)
    requires IsBlank(b) && IsBlank(b') && r.Valid() && AtRest(st)
    ensures var v := "^" + Insert(r, b, b', "");
      if TrackerOf(st.tokens).ReadsIfCondition()
      then AddsWord(st, Run(st, v), [b] + r.handle)
      else Run(st, v) == Run(st, "")
  {
    hide Run, TrackerOf, Decide, Redirection.Text;
    var v, more := "^" + Insert(r, b, b', ""), Then(r.Text(), b', "");
    assert v == ['^', b] + more;
    AppendDrop(['^', b], more, 2);
    CaretBlank(st, b, more);
    RunStep(st, v);
    if TrackerOf(st.tokens).ReadsIfCondition() {
      EscapedBlankEmitted(st, Word([b], true, ['^', b]), r, b');
    } else {
      VanishesAtRest(st, r, b', "");
    }
  }

  /** A caret in front of a blank, between words. */
  lemma CaretBlank(st: Lex, b: char, more: string)
    requires IsBlank(b) && AtRest(st)
    ensures Decide(st, ['^', b] + more) ==
              (if TrackerOf(st.tokens).ReadsIfCondition() then Add([b], ['^', b], true) else EndWord, 2)
  {
    hide TrackerOf;
    var v := ['^', b] + more;
    assert v[..2] == ['^', b] && v[0] == '^' && v[1] == b;
  }

  lemma DanglesStep(st0: Lex, s: string, rest: string, st: Lex)
    requires |s| > 0 && Reaches(st0, s + rest, |s|, st) && !(s == "^" && rest == "")
    ensures var (action, k) := Decide(st0, s + rest);
      Dangles(st0, s, rest, st) <==> Dangles(Perform(st0, action), s[k..], rest, st)
  {
    hide Decide, Perform, TrackerOf;
    if rest == "" {
      assert s + rest == s;
    }
  }

  lemma CaretSkipped(st0: Lex, st: Lex)
    requires Reaches(st0, "^", 1, st) && AtRest(st)
    ensures st0 == st
  {
    assert "^"[1..] == "";
    assert Decide(st0, "^") == if st0.inQuote then (Add("^", "^", false), 1) else (Skip("^"), 1);
  }

  lemma CaretCase(st0: Lex, st: Lex, r: Redirection, b: char, b': char)
    requires IsBlank(b) && IsBlank(b') && r.Valid() && Reaches(st0, "^", 1, st) && AtRest(st)
    ensures var v := "^" + Insert(r, b, b', "");
      if Dangles(st0, "^", "", st) then AddsWord(Run(st0, "^"), Run(st0, v), [b] + r.handle)
      else Run(st0, v) == Run(st0, "^")
  {
    hide Run, TrackerOf, Insert;
    assert "^"[1..] == "";
    CaretSkipped(st0, st);
    CaretAtEnd(st, r, b, b');
    RunStep(st, "^");
    RunEnd(st);
  }

  lemma {:induction false} Insertion(
      st0: Lex, s: string, rest: string, st: Lex, r: Redirection, b: char, b': char)
    requires IsBlank(b) && IsBlank(b') && r.Valid() && Reaches(st0, s + rest, |s|, st) && AtRest(st)
    ensures var u, v := s + rest, s + Insert(r, b, b', rest);
      if Dangles(st0, s, rest, st) then AddsWord(Run(st0, u), Run(st0, v), [b] + r.handle)
      else Run(st0, v) == Run(st0, u)
    decreases |s|
  {
    hide Run, Decide, Perform, Unfinished, TrackerOf;
    var x := Insert(r, b, b', rest);
    var u, v := s + rest, s + x;
    if |s| == 0 {
      assert u == rest && v == x;
      BlankStep(st, b, Then(r.Text(), b', rest));
      VanishesAtRest(st, r, b', rest);
    } else if s == "^" && rest == "" {
      assert u == "^";
      CaretCase(st0, st, r, b, b');
    } else {
      hide Dangles, Insert;
      var (action, k) := Decide(st0, u);
      DecideMeets(st0, s, rest, x);
      DanglesStep(st0, s, rest, st);
      RunStep(st0, u);
      AppendDrop(s, rest, k);
      if Decide(st0, v) == Decide(st0, u) {
        RunStep(st0, v);
        AppendDrop(s, x, k);
        Insertion(Perform(st0, action), s[k..], rest, st, r, b, b');
      } else {
        UnfinishedVanishes(st0, s, rest, st, r, b, b');
      }
    }
  }

  /** Inserting a redirection with a blank on either side wherever the tokenizer
      stands between words and outside quotes changes nothing, unless the line
      ends there on a caret that an `if` condition would read as escaping the
      blank; in that case it always does. */
  lemma RedirectionTransparent(
      st0: Lex, s: string, rest: string, st: Lex, r: Redirection, b: char, b': char)
    requires IsBlank(b) && IsBlank(b') && r.Valid() && Reaches(st0, s + rest, |s|, st) && AtRest(st)
    ensures Run(st0, s + Insert(r, b, b', rest)) == Run(st0, s + rest) <==> !Dangles(st0, s, rest, st)
  {
    Insertion(st0, s, rest, st, r, b, b');
  }

  lemma IfReadsCondition()
    ensures TrackerOf([Token("if", true, "if")]).ReadsIfCondition()
  {
    var line := Shapes([Token("if", true, "if")]);
    assert Lower("if") == "if" by {
      assert "if"[1..] == "f" && "f"[1..] == "";
      assert Lower("f") == "f";
    }
    assert TrimAt("if") == "if";
    assert line[0].verb == If && line[0].sep == NoSep;
    assert Track(true, line, 0) == NewTracker(true);
  }

  /** The exception is real: in `if ^` the caret is read between words while the
      condition is open. */
  lemma IfCaretDangles() returns (st: Lex)
    ensures Reaches(NewLex(0), "if ^" + "", 4, st) && AtRest(st) && Dangles(NewLex(0), "if ^", "", st)
  {
    hide TrackerOf, RedirectionLength, VariableLength, OpensHere;
    st := Lex([Token("if", true, "if")], None, false, false, 0);
    IfReadsCondition();
    var one := NewLex(0).(word := Some(Word("i", false, "i")));
    var two := NewLex(0).(word := Some(Word("if", false, "if")));
    assert "if ^"[1..] == "f ^" && "f ^"[1..] == " ^" && " ^"[1..] == "^" && "^"[1..] == "";
    assert Decide(NewLex(0), "if ^") == (Add("i", "i", false), 1);
    assert Decide(one, "f ^") == (Add("f", "f", false), 1) && "i" + "f" == "if";
    assert Decide(two, " ^") == (EndWord, 1) && Perform(two, EndWord) == st;
    assert Decide(st, "^") == (Skip("^"), 1);
    assert Reaches(st, "^", 1, st);
    assert Reaches(two, " ^", 2, st) && Reaches(two, " ^", 1, st);
    assert Reaches(one, "f ^", 3, st) && Reaches(one, "f ^", 2, st);
    assert "if ^" + "" == "if ^";
  }

  // ----- Behind a blank that is already there -----

  lemma FinishedAtBlank(s: string, rest: string)
    requires |s| > 0 && Delimits(rest) && OperatorLength(s + rest).0 <= |s|
    ensures !Unfinished(s, rest)
  {
    hide BlankLength;
    var op := OperatorLength(s + rest).0;
    assert (s + rest)[op..][|s| - op] == rest[0];
  }

  lemma {:induction false} ReachesMeets(st0: Lex, s: string, rest: string, x: string, st: Lex)
    requires Delimits(rest) && Delimits(x) && Reaches(st0, s + rest, |s|, st)
    ensures Reaches(st0, s + x, |s|, st)
    decreases |s|
  {
    hide Decide, Perform, Unfinished;
    if |s| > 0 {
      var (action, k) := Decide(st0, s + rest);
      DecideMeets(st0, s, rest, x);
      if Decide(st0, s + x) != Decide(st0, s + rest) {
        OperatorTaken(st0, s + rest);
        FinishedAtBlank(s, rest);
      }
      AppendDrop(s, rest, k);
      AppendDrop(s, x, k);
      ReachesMeets(Perform(st0, action), s[k..], rest, x, st);
    }
  }

  lemma OperatorTaken(st: Lex, u: string)
    requires |u| > 0 && !st.inQuote && (u[0] == '<' || u[0] == '>')
    ensures OperatorLength(u).0 <= Decide(st, u).1
  {
    hide OperatorLength, TargetLength, BlankLength;
    RedirectionDecided(st, u);
  }

  lemma {:induction false} RunReaches(st: Lex, line: string, n: nat, to: Lex)
    requires n <= |line| && Reaches(st, line, n, to)
    ensures Run(st, line) == Run(to, line[n..])
    decreases n
  {
    hide Decide, Perform;
    if n == 0 {
      assert line[0..] == line;
    } else {
      var (action, k) := Decide(st, line);
      RunReaches(Perform(st, action), line[k..], n - k, to);
      DropDrop(line, k, n - k);
    }
  }

  /** At a separating blank the line so far amounts to the flushed state. */
  lemma RunAtBlank(st0: Lex, s: string, b: char, x: string, st: Lex)
    requires IsBlank(b) && Reaches(st0, s + ([b] + x), |s|, st) && !st.argQuote
    ensures Run(st0, s + ([b] + x)) == Run(Flush(st), x)
  {
    RunReaches(st0, s + ([b] + x), |s|, st);
    AppendDrop(s, [b] + x, |s|);
    BlankStep(st, b, x);
  }

  /** Behind a blank of the line that stands outside quotes, also one that ends a
      word, the redirection needs no blank of its own in front. */
  lemma TransparentAfterBlank(st0: Lex, s: string, b: char, rest: string, st: Lex, r: Redirection, b': char)
    requires IsBlank(b) && IsBlank(b') && r.Valid()
    requires Reaches(st0, s + ([b] + rest), |s|, st) && !st.inQuote && !st.argQuote
    ensures Run(st0, s + Insert(r, b, b', rest)) == Run(st0, s + ([b] + rest))
  {
    hide Run;
    var more := Then(r.Text(), b', rest);
    ReachesMeets(st0, s, [b] + rest, [b] + more, st);
    RunAtBlank(st0, s, b, rest, st);
    RunAtBlank(st0, s, b, more, st);
    VanishesAtRest(Flush(st), r, b', rest);
  }
}
