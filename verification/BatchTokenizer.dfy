/**
  The batch tokenizer as the source runs it: one pass over a line with a word
  under construction and a command tracker fed with every emitted token.
 */
module BatchTokenizer {
  import opened Basics
  import opened CommandTracking
  import opened BatchText
  import opened BatchLexer

  class Tokenizer {
    const line: string
    const tracker: CommandTracker
    var tokens: seq<Token>
    var current: string   // text of the current word
    var quoted: bool      // the current word has quoted or escaped text
    var start: int        // where the current word starts, else -1
    var inQuote: bool
    var argQuote: bool
    var depth: nat

    /** The online tracker is in the state of a run over all emitted tokens. */
    ghost predicate Valid()
      reads this, tracker
    {
      && TrackedTo(tracker.View(), true, Shapes(tokens), |tokens|)
      && -1 <= start <= |line|
      && (start < 0 ==> current == "" && !quoted)
    }

    /** The tokenizer's state when the next character to read is `line[at]`. */
    ghost function View(at: nat): Lex
      requires start <= at <= |line|
      reads this
    {
      Lex(tokens,
          if start < 0 then None else Some(Word(current, quoted, line[start..at])),
          inQuote, argQuote, depth)
    }

    constructor (line: string, depth: nat)
      ensures Valid() && fresh(tracker) && this.line == line && start == -1 && View(0) == NewLex(depth)
    {
      this.line, this.depth := line, depth;
      tracker := new CommandTracker(true);
      tokens, current, quoted, start, inQuote, argQuote := [], "", false, -1, false, false;
    }

    method Emit(token: Token)
      requires Valid()
      modifies this`tokens, tracker
      ensures Valid() && tokens == old(tokens) + [token]
    {
      hide ShapeOf, Consume;
      var n := |tokens|;
      ghost var before := Shapes(tokens);
      tokens := tokens + [token];
      TrackPrefix(true, before, Shapes(tokens), n);
      TrackedStep(tracker.View(), true, Shapes(tokens), n);
      var _ := tracker.Next(Shapes(tokens), n);
    }

    method Flush(end: nat)
      requires Valid() && start <= end <= |line|
      modifies this`tokens, this`current, this`quoted, this`start, tracker
      ensures Valid() && start == -1
      ensures View(end) == BatchLexer.Flush(old(View(end)))
    {
      if |current| > 0 || quoted {
        Emit(Token(current, true, line[start..end]));
        current := "";
      }
      quoted := false;
      start := -1;
    }

    method Begin(at: nat)
      requires Valid() && start <= at <= |line|
      modifies this`start
      ensures Valid() && 0 <= start <= at
      ensures old(start) >= 0 ==> start == old(start)
      ensures old(start) < 0 ==> start == at
    {
      if start < 0 {
        start := at;
      }
    }

    /** Adds `text` to the current word for the source text `line[i..next]`. */
    method Write(i: nat, next: nat, text: string, mark: bool)
      requires Valid() && start <= i <= next <= |line|
      modifies this`start, this`current, this`quoted
      ensures Valid() && 0 <= start <= i
      ensures View(next) == Perform(old(View(i)), Add(text, line[i..next], mark))
    {
      assert "" + text == text;
      Begin(i);
      current := current + text;
      if mark {
        quoted := true;
      }
      assert line[start..next] == line[start..i] + line[i..next];
    }

    /** Notes a double quote written as `line[i..next]`. */
    method Quotation(i: nat, next: nat, command: bool)
      requires Valid() && start <= i <= next <= |line|
      modifies this`start, this`quoted, this`inQuote, this`argQuote
      ensures Valid() && 0 <= start <= i
      ensures View(next) == Perform(old(View(i)), Quote(line[i..next], command))
    {
      assert current + "" == current;
      Begin(i);
      if command {
        inQuote := !inQuote;
      }
      argQuote := !argQuote;
      quoted := true;
      assert line[start..next] == line[start..i] + line[i..next];
    }

    method EmitSeparator(i: nat, ch: char, depth': nat)
      requires Valid() && start <= i < |line|
      modifies this, tracker
      ensures Valid() && start == -1
      ensures View(i + 1) == BatchLexer.EmitSeparator(BatchLexer.Flush(old(View(i))).(depth := depth'), ch)
    {
      Flush(i);
      assert View(i) == BatchLexer.Flush(old(View(i)));
      argQuote := false;
      depth := depth';
      Emit(Separator(ch));
    }

    predicate OpensAfterWord(word: string)
      requires Valid()
      reads this, tracker
      ensures OpensAfterWord(word) == BatchLexer.OpensAfterWord(Lex(tokens, None, inQuote, argQuote, depth), word)
    {
      var afterParen := AfterParen(Shapes(tokens), |tokens|);
      if word in {"@"} then tracker.View().OpensBlock()
      else if EqualFold(word, "do") then afterParen
      else if EqualFold(word, "else") then afterParen && !tracker.forHeader
      else if EqualFold(word, "in") then tracker.forHeader && !tracker.forSet
      else false
    }

    /** An unquoted caret at `line[i]`. */
    method StepCaret(i: nat) returns (next: nat)
      requires Valid() && start <= i < |line| && line[i] == '^' && !inQuote
      modifies this, tracker
      ensures Valid() && start <= next
      ensures var (action, n) := DecideCaret(old(View(i)), line[i..]);
        next == i + n && View(next) == Perform(old(View(i)), action)
    {
      hide IfScan, Shapes;
      ghost var rest := line[i..];
      if i + 1 >= |line| {
        assert start >= 0 ==> line[start..i + 1] == line[start..i] + rest && current + "" == current;
        return i + 1;
      }
      assert rest[..2] == line[i..i + 2] && rest[1] == line[i + 1];
      var ch := line[i + 1];
      if ch == '"' {
        Quotation(i, i + 2, false);
      } else if IsBlank(ch) && !argQuote && !tracker.View().ReadsIfCondition() {
        Flush(i);
      } else {
        Write(i, i + 2, [ch], true);
      }
      return i + 2;
    }

    /** An unquoted redirection at `line[i]`. */
    method StepRedirection(i: nat) returns (next: nat)
      requires Valid() && start <= i < |line| && (line[i] == '<' || line[i] == '>') && !inQuote
      modifies this, tracker
      ensures Valid() && start <= next
      ensures var (action, n) := DecideRedirection(old(View(i)), line[i..]);
        next == i + n && View(next) == Perform(old(View(i)), action)
    {
      hide TrackedTo, RedirectionLength;
      next := BatchRedirectionEnd(line, i, depth > 0);
      if !argQuote {
        if !quoted && IsRedirectPrefix(current) {
          current := "";
        }
        Flush(i);
      } else {
        assert line[i..next] == line[i..][..next - i];
        assert start >= 0 ==> line[start..next] == line[start..i] + line[i..next] && current + "" == current;
      }
    }

    /** A `(` at `line[i]` outside quotes. */
    method StepOpen(i: nat) returns (next: nat)
      requires Valid() && start <= i < |line| && line[i] == '(' && !inQuote
      modifies this, tracker
      ensures Valid() && start <= next == i + 1
      ensures View(next) == Perform(old(View(i)), if OpensHere(old(View(i))) then OpenBlock else Add("(", "(", false))
    {
      hide Track, ShapeOf, EqualFold;
      next := i + 1;
      assert line[i..i + 1] == "(";
      if start >= 0 && !quoted && OpensAfterWord(current) {
        EmitSeparator(i, '(', depth + 1);
      } else if start < 0 && tracker.View().OpensBlock() {
        EmitSeparator(i, '(', depth + 1);
      } else {
        Write(i, i + 1, "(", false);
      }
    }

    /** One turn of the loop. */
    method Step(i: nat) returns (next: nat)
      requires Valid() && start <= i < |line|
      modifies this, tracker
      ensures Valid() && start <= next
      ensures var (action, n) := Decide(old(View(i)), line[i..]);
        next == i + n && View(next) == Perform(old(View(i)), action)
    {
      hide TrackedTo, DecideCaret, DecideRedirection, OpensHere;
      var ch := line[i];
      next := i + 1;
      assert line[i..i + 1] == [ch];
      if ch == '"' {
        Quotation(i, next, true);
      } else if IsBlank(ch) && !argQuote {
        Flush(i);
      } else if inQuote || IsBlank(ch) {
        Write(i, next, [ch], false);
      } else if ch == '^' {
        next := StepCaret(i);
      } else if ch == '%' {
        next := BatchVariableEnd(line, i);
        assert line[i..next] == line[i..][..next - i];
        Write(i, next, line[i..next], false);
      } else if ch == '<' || ch == '>' {
        next := StepRedirection(i);
      } else if ch == '(' {
        next := StepOpen(i);
      } else if ch == ')' && depth > 0 {
        EmitSeparator(i, ')', depth - 1);
      } else if ch == '|' || ch == '&' {
        EmitSeparator(i, ch, depth);
      } else {
        Write(i, next, [ch], false);
      }
    }
  }

  /** Splits a batch logical line into tokens; `depth` carries the open blocks
      from one logical line to the next. */
  method TokenizeBatch(line: string, depth: nat) returns (tokens: seq<Token>, depth': nat)
    ensures tokens == Run(NewLex(depth), line).tokens
    ensures depth' == Run(NewLex(depth), line).depth
  {
    hide Decide, Perform, BatchLexer.Flush, TrackedTo;
    var t := new Tokenizer(line, depth);
    var i := 0;
    assert line[0..] == line;
    while i < |line|
      invariant t.Valid() && fresh(t) && fresh(t.tracker) && t.line == line
      invariant t.start <= i <= |line|
      invariant Run(NewLex(depth), line) == Run(t.View(i), line[i..])
    {
      var next := t.Step(i);
      DropDrop(line, i, next - i);
      i := next;
    }
    t.Flush(|line|);
    tokens, depth' := t.tokens, t.depth;
  }
}
