/**
  The batch tokenizer as a transition system: each step consumes one or more
  characters of the rest of a logical line.
 */
module BatchLexer {
  import opened Basics
  import opened CommandTracking
  import opened BatchText

  /** The word being read: its text so far, whether it has quoted or escaped
      text, and its source text. */
  datatype Word = Word(text: string, quoted: bool, raw: string)

  datatype Lex = Lex(
    tokens: seq<Token>,
    word: Option<Word>,
    inQuote: bool,    // inside a cmd.exe double quote
    argQuote: bool,   // inside a double quote as the invoked program sees it
    depth: nat)

  function NewLex(depth: nat): Lex { Lex([], None, false, false, depth) }

  function Emit(st: Lex, token: Token): Lex { st.(tokens := st.tokens + [token]) }

  /** The command tracker run over the tokens emitted so far. */
  function TrackerOf(tokens: seq<Token>): Tracker { Track(true, Shapes(tokens), |tokens|) }

  function Flush(st: Lex): Lex {
    match st.word
    case None => st
    case Some(w) =>
      var ended := st.(word := None);
      if |w.text| > 0 || w.quoted then Emit(ended, Token(w.text, true, w.raw)) else ended
  }

  /** What one step does: add to the current word (which begins there if there
      is none), skip source text inside it, end it, forget it as the handle of a
      redirection, or emit a separator. */
  datatype Action =
    | Add(text: string, raw: string, quoted: bool)
    | Quote(raw: string, command: bool)
    | Skip(raw: string)
    | EndWord
    | DropWord
    | OpenBlock
    | CloseBlock
    | Separate(ch: char)

  function Grow(word: Option<Word>, text: string, raw: string, quoted: bool): Option<Word> {
    match word
    case None => Some(Word(text, quoted, raw))
    case Some(w) => Some(Word(w.text + text, w.quoted || quoted, w.raw + raw))
  }

  function EmitSeparator(st: Lex, ch: char): Lex { Emit(st.(argQuote := false), Separator(ch)) }

  function Perform(st: Lex, action: Action): Lex {
    match action
    case Add(text, raw, quoted) => st.(word := Grow(st.word, text, raw, quoted))
    case Quote(raw, command) =>
      st.(word := Grow(st.word, "", raw, true),
          inQuote := if command then !st.inQuote else st.inQuote,
          argQuote := !st.argQuote)
    case Skip(raw) => if st.word.None? then st else st.(word := Grow(st.word, "", raw, false))
    case EndWord => Flush(st)
    case DropWord => st.(word := None)
    case OpenBlock => EmitSeparator(Flush(st).(depth := st.depth + 1), '(')
    case CloseBlock => EmitSeparator(Flush(st).(depth := if st.depth > 0 then st.depth - 1 else 0), ')')
    case Separate(ch) => EmitSeparator(Flush(st), ch)
  }

  /** Whether a `(` written directly after an unquoted word opens a block once
      the word is split off. */
  predicate OpensAfterWord(st: Lex, word: string) {
    var afterParen := AfterParen(Shapes(st.tokens), |st.tokens|);
    var tracker := TrackerOf(st.tokens);
    if word in {"@"} then tracker.OpensBlock()
    else if EqualFold(word, "do") then afterParen
    else if EqualFold(word, "else") then afterParen && !tracker.forHeader
    else if EqualFold(word, "in") then tracker.forHeader && !tracker.forSet
    else false
  }

  predicate OpensHere(st: Lex) {
    match st.word
    case None => TrackerOf(st.tokens).OpensBlock()
    case Some(w) => !w.quoted && OpensAfterWord(st, w.text)
  }

  /** An unquoted caret: it makes the next character literal. */
  function DecideCaret(st: Lex, rest: string): (Action, nat)
    requires |rest| > 0
  {
    if |rest| == 1 then (Skip(rest), 1)
    else if rest[1] == '"' then (Quote(rest[..2], false), 2)
    else if IsBlank(rest[1]) && !st.argQuote && !TrackerOf(st.tokens).ReadsIfCondition() then (EndWord, 2)
    else (Add([rest[1]], rest[..2], true), 2)
  }

  function DecideRedirection(st: Lex, rest: string): (Action, nat)
    requires |rest| > 0
  {
    var n := RedirectionLength(rest, st.depth > 0);
    if st.argQuote then (Skip(rest[..n]), n)
    else if st.word.Some? && !st.word.value.quoted && IsRedirectPrefix(st.word.value.text) then (DropWord, n)
    else (EndWord, n)
  }

  /** One step of the tokenizer's loop and the number of characters it takes. */
  function Decide(st: Lex, rest: string): (r: (Action, nat))
    requires |rest| > 0
    ensures 1 <= r.1 <= |rest|
  {
    var ch := rest[0];
    if ch == '"' then (Quote([ch], true), 1)
    else if IsBlank(ch) && !st.argQuote then (EndWord, 1)
    else if st.inQuote || IsBlank(ch) then (Add([ch], [ch], false), 1)
    else if ch == '^' then DecideCaret(st, rest)
    else if ch == '%' then
      var n := VariableLength(rest);
      (Add(rest[..n], rest[..n], false), n)
    else if ch == '<' || ch == '>' then DecideRedirection(st, rest)
    else if ch == '(' && OpensHere(st) then (OpenBlock, 1)
    else if ch == ')' && st.depth > 0 then (CloseBlock, 1)
    else if ch == '|' || ch == '&' then (Separate(ch), 1)
    else (Add([ch], [ch], false), 1)
  }

  /** Reads the rest of the line and ends its last word. */
  function Run(st: Lex, rest: string): Lex
    decreases |rest|
  {
    if |rest| == 0 then Flush(st)
    else
      var (action, n) := Decide(st, rest);
      Run(Perform(st, action), rest[n..])
  }

  // ----- The parentheses -----

  /** Every `(` stands where the tracker, run over the tokens before it, says a
      block opens. */
  ghost predicate ParensOpen(tokens: seq<Token>) {
    forall n :: 0 <= n < |tokens| && SepOf(tokens[n]).Open? ==> TrackerOf(tokens[..n]).OpensBlock()
  }

  /** The tracker run online over the tokens emitted so far and one run later over
      the finished line are in the same state at every token. */
  lemma OnlineTrackerAgrees(tokens: seq<Token>, n: nat)
    requires n <= |tokens|
    ensures TrackerOf(tokens[..n]) == Track(true, Shapes(tokens), n)
  {
    TrackPrefix(true, Shapes(tokens[..n]), Shapes(tokens), n);
  }

  lemma SeparatorShape(ch: char)
    ensures SepOf(Separator(ch)).Open? <==> ch == '('
    ensures SepOf(Separator(ch)).Close? <==> ch == ')'
  {
    assert [ch][0] == ch && "("[0] == '(' && ")"[0] == ')';
  }

  lemma EmitOpen(tokens: seq<Token>, token: Token)
    requires ParensOpen(tokens)
    requires SepOf(token).Open? ==> TrackerOf(tokens).OpensBlock()
    ensures ParensOpen(tokens + [token])
  {
    var more := tokens + [token];
    forall n | 0 <= n < |more| && SepOf(more[n]).Open? ensures TrackerOf(more[..n]).OpensBlock() {
      assert more[..n] == tokens[..n];
      assert tokens[..|tokens|] == tokens;
    }
  }

  /** A `(` is emitted only where the tracker says a block opens, also after the
      word in front of it has been split off. */
  lemma OpensAfterFlush(st: Lex)
    requires OpensHere(st)
    ensures TrackerOf(Flush(st).tokens).OpensBlock()
  {
    hide Consume, TrackerOk, ShapeOf;
    if st.word.Some? {
      var w, n := st.word.value, |st.tokens|;
      var token := Token(w.text, true, w.raw);
      var line := Shapes(st.tokens + [token]);
      WordShape(w.text, w.raw);
      assert line[n] == ShapeOf(token);
      TrackPrefix(true, Shapes(st.tokens), line, n);
      TrackOk(true, line, n);
      assert n > 0 ==> line[n - 1] == Shapes(st.tokens)[n - 1];
      OpensAfterSplit(TrackerOf(st.tokens), line, n);
    }
  }

  /** What the tracker sees of a word that may be split off. */
  lemma WordShape(text: string, raw: string)
    ensures var shape := ShapeOf(Token(text, true, raw));
      && !shape.IsSeparator()
      && (text in {"@"} ==> shape.verb.EchoOff?)
      && (EqualFold(text, "do") <==> shape.isDo)
      && (EqualFold(text, "else") <==> shape.isElse)
  {
    if text in {"@"} {
      assert TrimAt(text) == "" && Lower("") == "";
    }
  }

  /** A word that folds to one of these keywords is no other verb. */
  lemma KeywordVerb(text: string, keyword: string)
    requires keyword in {"do", "else", "in"} && EqualFold(text, keyword)
    ensures VerbOf(text).Other? && text != "@"
  {
    FoldChars(text);
    hide Fold;
    assert |text| == |keyword| && FoldChar(text[0]) == keyword[0] && FoldChar(text[1]) == keyword[1];
    assert TrimAt(text) == text;
    LowerChars(text);
    hide Lower;
    var word := Lower(text);
    assert word[0] == LowerChar(text[0]) && word[1] == LowerChar(text[1]);
  }

  predicate SplitsOff(word: string) {
    word in {"@"} || EqualFold(word, "do") || EqualFold(word, "else") || EqualFold(word, "in")
  }

  /** Exactly where a `(` directly behind an unquoted word opens a block: behind `@`,
      `do`, `else` or `in`, where one opens once the word is split off, unless the word
      belongs to an unfinished `if` condition or is a `do` or `else` in a `for` header
      other than the `do` behind its set. */
  lemma OpensAfterExactly(st: Lex, w: Word)
    requires st.word == Some(w) && !w.quoted && |w.text| > 0
    ensures var c := TrackerOf(st.tokens);
      OpensHere(st) <==>
        && SplitsOff(w.text) && TrackerOf(Flush(st).tokens).OpensBlock() && !c.ReadsIfCondition()
        && (c.forHeader && (EqualFold(w.text, "do") || EqualFold(w.text, "else")) ==>
              EqualFold(w.text, "do") && st.tokens != [] && SepOf(st.tokens[|st.tokens| - 1]).Close?)
  {
    var c := TrackerOf(st.tokens);
    var line, n := FlushedTracker(st, w);
    WordShape(w.text, w.raw);
    KeywordShapes(w.text, w.raw);
    hide Consume, TrackerOk, ShapeOf, TrackerOf, Flush;
    if OpensHere(st) {
      OpensAfterFlush(st);
      NotReading(c, line, n);
    }
    if SplitsOff(w.text) && Consume(c, line, n).0.OpensBlock() && !c.ReadsIfCondition() {
      OpensOnlyAfterSplit(c, line, n);
    }
  }

  /** The tokens with the word split off, as the tracker sees them. */
  lemma FlushedTracker(st: Lex, w: Word) returns (line: seq<Shape>, n: nat)
    requires st.word == Some(w) && !w.quoted && |w.text| > 0
    ensures n == |st.tokens| && |line| == n + 1 && line[n] == ShapeOf(Token(w.text, true, w.raw))
    ensures TrackerOk(TrackerOf(st.tokens), line, n) && TrackerOf(st.tokens).batch
    ensures TrackerOf(Flush(st).tokens) == Consume(TrackerOf(st.tokens), line, n).0
    ensures AfterParen(line, n) <==> AfterParen(Shapes(st.tokens), n)
    ensures AfterParen(line, n) <==> st.tokens != [] && SepOf(st.tokens[n - 1]).Close?
  {
    n := |st.tokens|;
    line := Shapes(st.tokens + [Token(w.text, true, w.raw)]);
    assert n > 0 ==> Shapes(st.tokens)[n - 1].sep == SepOf(st.tokens[n - 1]);
    assert line[n] == ShapeOf(Token(w.text, true, w.raw));
    hide Consume, TrackerOk, ShapeOf;
    TrackPrefix(true, Shapes(st.tokens), line, n);
    TrackOk(true, line, n);
    assert n > 0 ==> line[n - 1] == Shapes(st.tokens)[n - 1];
  }

  lemma KeywordShapes(text: string, raw: string)
    ensures var shape := ShapeOf(Token(text, true, raw));
      && (EqualFold(text, "do") || EqualFold(text, "else") || EqualFold(text, "in") ==> shape.verb.Other? && text != "@")
      && (EqualFold(text, "in") ==> !shape.isDo && !shape.isElse)
      && (shape.isDo ==> !shape.isElse)
  {
    if EqualFold(text, "do") { KeywordVerb(text, "do"); }
    if EqualFold(text, "else") { KeywordVerb(text, "else"); }
    if EqualFold(text, "in") { KeywordVerb(text, "in"); }
  }

  lemma NotReading(c: Tracker, line: seq<Shape>, n: nat)
    requires n < |line| && TrackerOk(c, line, n)
    ensures c.OpensBlock() || AfterParen(line, n) || c.forHeader ==> !c.ReadsIfCondition()
  {
  }

  lemma PerformOpen(st: Lex, action: Action)
    requires ParensOpen(st.tokens)
    requires (action.OpenBlock? ==> OpensHere(st)) && (action.Separate? ==> action.ch != '(')
    ensures ParensOpen(Perform(st, action).tokens)
  {
    var f := Flush(st);
    if st.word.Some? {
      EmitOpen(st.tokens, Token(st.word.value.text, true, st.word.value.raw));
    }
    match action
    case OpenBlock =>
      OpensAfterFlush(st);
      EmitOpen(f.tokens, Separator('('));
    case CloseBlock =>
      SeparatorShape(')');
      EmitOpen(f.tokens, Separator(')'));
    case Separate(ch) =>
      SeparatorShape(ch);
      EmitOpen(f.tokens, Separator(ch));
    case _ =>
  }

  /** What the parentheses need to know about a decision. */
  lemma DecideParens(st: Lex, rest: string)
    requires |rest| > 0
    ensures var action := Decide(st, rest).0;
      && (action.OpenBlock? ==> OpensHere(st))
      && (action.CloseBlock? ==> st.depth > 0)
      && (action.Separate? ==> action.ch != '(' && action.ch != ')')
  {
    hide OpensHere, TrackerOf, RedirectionLength, VariableLength;
  }

  lemma {:induction false} RunOpen(st: Lex, rest: string)
    requires ParensOpen(st.tokens)
    ensures ParensOpen(Run(st, rest).tokens)
    decreases |rest|
  {
    if |rest| == 0 {
      PerformOpen(st, EndWord);
    } else {
      hide Decide, ParensOpen;
      DecideParens(st, rest);
      var (action, n) := Decide(st, rest);
      PerformOpen(st, action);
      RunOpen(Perform(st, action), rest[n..]);
    }
  }

  /** Open blocks after `tokens` when `depth` were open before. */
  function DepthAfter(depth: int, tokens: seq<Token>): int {
    if |tokens| == 0 then depth
    else
      var before := DepthAfter(depth, tokens[..|tokens| - 1]);
      match SepOf(tokens[|tokens| - 1])
      case Open => before + 1
      case Close => before - 1
      case _ => before
  }

  /** No `)` closes more blocks than are open. */
  ghost predicate NeverNegative(depth: int, tokens: seq<Token>) {
    forall n :: 0 <= n <= |tokens| ==> DepthAfter(depth, tokens[..n]) >= 0
  }

  lemma DepthEmit(depth: nat, tokens: seq<Token>, token: Token)
    requires NeverNegative(depth, tokens)
    requires SepOf(token).Close? ==> DepthAfter(depth, tokens) > 0
    ensures DepthAfter(depth, tokens + [token]) == DepthAfter(depth, tokens) +
              (match SepOf(token) case Open => 1 case Close => -1 case _ => 0)
    ensures NeverNegative(depth, tokens + [token])
  {
    var more := tokens + [token];
    assert more[..|tokens|] == tokens == tokens[..|tokens|];
    forall n | 0 <= n <= |more| ensures DepthAfter(depth, more[..n]) >= 0 {
      if n <= |tokens| { assert more[..n] == tokens[..n]; } else { assert more[..n] == more; }
    }
  }

  /** The tokenizer's depth is the running excess of the parentheses it emits. */
  ghost predicate DepthOk(depth: nat, tokens: seq<Token>, now: int) {
    NeverNegative(depth, tokens) && DepthAfter(depth, tokens) == now
  }

  lemma FlushDepth(depth: nat, st: Lex)
    requires DepthOk(depth, st.tokens, st.depth)
    ensures DepthOk(depth, Flush(st).tokens, st.depth)
  {
    if st.word.Some? {
      DepthEmit(depth, st.tokens, Token(st.word.value.text, true, st.word.value.raw));
    }
  }

  lemma SeparatorDepth(depth: nat, tokens: seq<Token>, now: int, ch: char)
    requires DepthOk(depth, tokens, now) && (ch == ')' ==> now > 0)
    ensures DepthOk(depth, tokens + [Separator(ch)], if ch == '(' then now + 1 else if ch == ')' then now - 1 else now)
  {
    SeparatorShape(ch);
    DepthEmit(depth, tokens, Separator(ch));
  }

  lemma PerformDepth(depth: nat, st: Lex, action: Action)
    requires DepthOk(depth, st.tokens, st.depth)
    requires (action.CloseBlock? ==> st.depth > 0) && (action.Separate? ==> action.ch != '(' && action.ch != ')')
    ensures DepthOk(depth, Perform(st, action).tokens, Perform(st, action).depth)
  {
    hide DepthOk;
    FlushDepth(depth, st);
    match action
    case OpenBlock => SeparatorDepth(depth, Flush(st).tokens, st.depth, '(');
    case CloseBlock => SeparatorDepth(depth, Flush(st).tokens, st.depth, ')');
    case Separate(ch) => SeparatorDepth(depth, Flush(st).tokens, st.depth, ch);
    case _ =>
  }

  lemma {:induction false} RunDepth(depth: nat, st: Lex, rest: string)
    requires DepthOk(depth, st.tokens, st.depth)
    ensures DepthOk(depth, Run(st, rest).tokens, Run(st, rest).depth)
    decreases |rest|
  {
    if |rest| == 0 {
      PerformDepth(depth, st, EndWord);
    } else {
      hide Decide, DepthOk;
      DecideParens(st, rest);
      var (action, n) := Decide(st, rest);
      PerformDepth(depth, st, action);
      RunDepth(depth, Perform(st, action), rest[n..]);
    }
  }

  /** Every line's parentheses: each `(` stands where a block opens, each `)`
      closes an open one, and the depth carried to the next line is exact. */
  lemma LineParens(depth: nat, line: string)
    ensures ParensOpen(Run(NewLex(depth), line).tokens)
    ensures NeverNegative(depth, Run(NewLex(depth), line).tokens)
    ensures DepthAfter(depth, Run(NewLex(depth), line).tokens) == Run(NewLex(depth), line).depth
  {
    RunOpen(NewLex(depth), line);
    RunDepth(depth, NewLex(depth), line);
  }

  // ----- Quotes and escapes -----

  lemma {:induction false} QuoteRunConcat(q: QuoteState, s: string, t: string)
    ensures QuoteRun(q, s + t) == QuoteRun(QuoteRun(q, s), t)
    decreases s
  {
    if |s| == 0 {
      assert s + t == t;
    } else {
      QuoteRunConcat(QuoteStep(q, s[0]), s[1..], t);
      assert (s + t)[1..] == s[1..] + t;
    }
  }

  lemma QuoteShort(q: QuoteState, a: char, b: char)
    ensures QuoteRun(q, [a]) == QuoteStep(q, a)
    ensures QuoteRun(q, [a, b]) == QuoteStep(QuoteStep(q, a), b)
  {
    assert [a, b][1..] == [b];
    assert QuoteRun(QuoteStep(q, a), [b]) == QuoteStep(QuoteStep(q, a), b);
  }

  /** Text without quotes and carets changes nothing. */
  lemma {:induction false} QuotePlain(s: string)
    requires forall i :: 0 <= i < |s| ==> s[i] != '"' && s[i] != '^'
    ensures QuoteRun(Unquoted, s) == Unquoted
  {
    if |s| > 0 { QuotePlain(s[1..]); }
  }

  lemma {:induction false} NameIsPlain(s: string, i: nat)
    requires NameLength(s) < |s| && i <= NameLength(s)
    ensures s[i] != '"' && s[i] != '^'
  {
    if i > 0 { NameIsPlain(s[1..], i - 1); }
  }

  lemma {:induction false} TargetQuotes(s: string, inQuote: bool, inBlock: bool)
    ensures var n := TargetLength(s, inQuote, inBlock);
      n < |s| ==> QuoteRun(QuoteOf(inQuote), s[..n]) == Unquoted
  {
    var n := TargetLength(s, inQuote, inBlock);
    if n < |s| && n > 0 {
      assert s[..n][1..] == s[1..][..n - 1];
      if s[0] == '"' {
        TargetQuotes(s[1..], !inQuote, inBlock);
      } else if inQuote {
        TargetQuotes(s[1..], true, inBlock);
      } else if s[0] == '^' {
        TargetQuotes(s[2..], false, inBlock);
        assert s[..n][1..][1..] == s[2..][..n - 2];
      } else {
        TargetQuotes(s[1..], false, inBlock);
      }
    }
  }

  lemma OperatorIsPlain(rest: string, i: nat)
    requires |rest| > 0 && (rest[0] == '<' || rest[0] == '>')
    requires i < OperatorLength(rest).0 ||
             (!OperatorLength(rest).1 && i < OperatorLength(rest).0 + BlankLength(rest[OperatorLength(rest).0..]))
    ensures rest[i] != '"' && rest[i] != '^'
  {
    var op := OperatorLength(rest).0;
    if i >= op { assert IsBlank(rest[op..][i - op]); }
  }

  lemma RedirectionQuotes(rest: string, inBlock: bool)
    requires |rest| > 0 && (rest[0] == '<' || rest[0] == '>')
    ensures var n := RedirectionLength(rest, inBlock);
      n < |rest| ==> QuoteRun(Unquoted, rest[..n]) == Unquoted
  {
    var n := RedirectionLength(rest, inBlock);
    var (op, dup) := OperatorLength(rest);
    var start := if dup then op else op + BlankLength(rest[op..]);
    var head := rest[..start];
    forall i | 0 <= i < start ensures head[i] != '"' && head[i] != '^' { OperatorIsPlain(rest, i); }
    QuotePlain(head);
    if n < |rest| && !dup {
      var tail := rest[start..];
      TargetQuotes(tail, false, inBlock);
      QuoteRunConcat(Unquoted, head, tail[..n - start]);
      TakeSplit(rest, start, n);
    }
  }

  /** No step skips a quote or an escape: unless it ends the line, the tokenizer's
      quote flag moves exactly as the quote rules alone say. */
  lemma StepQuotes(st: Lex, rest: string)
    requires |rest| > 0
    ensures var (action, n) := Decide(st, rest);
      n < |rest| ==> QuoteRun(QuoteOf(st.inQuote), rest[..n]) == QuoteOf(Perform(st, action).inQuote)
  {
    var (action, n) := Decide(st, rest);
    var ch := rest[0];
    if n == 1 {
      assert rest[..1] == [ch];
      QuoteShort(QuoteOf(st.inQuote), ch, ch);
    } else if n < |rest| {
      if ch == '^' {
        assert rest[..2] == [ch, rest[1]];
        QuoteShort(Unquoted, ch, rest[1]);
      } else if ch == '%' {
        forall i | 0 <= i < n ensures rest[i] != '"' && rest[i] != '^' {
          if i > 0 && rest[1] != '%' { NameIsPlain(rest[1..], i - 1); }
        }
        QuotePlain(rest[..n]);
      } else {
        RedirectionQuotes(rest, st.depth > 0);
      }
    }
  }

  /** The tokenizer reaches state `to` with exactly `n` characters consumed. */
  ghost predicate Reaches(st: Lex, rest: string, n: nat, to: Lex)
    decreases n
  {
    if n == 0 then to == st
    else
      && |rest| > 0
      && var (action, k) := Decide(st, rest);
      k <= n && Reaches(Perform(st, action), rest[k..], n - k, to)
  }

  /** Wherever in a line the tokenizer's loop arrives, its quote flag is that of
      the quote rules run over everything before, and no escape is pending. */
  lemma {:induction false} TokenizerQuotes(st: Lex, rest: string, n: nat, to: Lex)
    requires n < |rest| && Reaches(st, rest, n, to)
    ensures QuoteRun(QuoteOf(st.inQuote), rest[..n]) == QuoteOf(to.inQuote)
    decreases n
  {
    hide Decide, Perform;
    if n > 0 {
      var (action, k) := Decide(st, rest);
      var next := Perform(st, action);
      StepQuotes(st, rest);
      TokenizerQuotes(next, rest[k..], n - k, to);
      QuoteRunConcat(QuoteOf(st.inQuote), rest[..k], rest[k..][..n - k]);
      TakeSplit(rest, k, n);
    }
  }
}
