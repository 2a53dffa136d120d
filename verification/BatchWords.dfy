/**
  What the tokens of a line are, said from how the line is written: a line put
  together from words and separators is read back as just these.
 */
module BatchWords {
  import opened Basics
  import opened CommandTracking
  import opened BatchText
  import opened BatchLexer

  /** A stretch of a word: an ordinary character, a character behind a caret, text
      in double quotes, or a variable. */
  datatype Stretch = Letter(ch: char) | Caret(ch: char) | InQuotes(text: string) | Percent(name: string)

  predicate IsOrdinary(ch: char) {
    !IsBlank(ch) && ch !in {'"', '^', '%', '<', '>', '(', ')', '|', '&'}
  }

  predicate IsStretch(g: Stretch) {
    match g
    case Letter(ch) => IsOrdinary(ch)
    case Caret(ch) => ch != '"' && !IsBlank(ch)
    case InQuotes(text) => forall i :: 0 <= i < |text| ==> text[i] != '"'
    case Percent(name) => IsVariable("%" + name + "%", |name| + 2)
  }

  /** How it is written, and what it stands for. */
  function Written(g: Stretch): string {
    match g
    case Letter(ch) => [ch]
    case Caret(ch) => ['^', ch]
    case InQuotes(text) => "\"" + text + "\""
    case Percent(name) => "%" + name + "%"
  }

  function Meant(g: Stretch): string {
    match g
    case Letter(ch) => [ch]
    case Caret(ch) => [ch]
    case InQuotes(text) => text
    case Percent(name) => "%" + name + "%"
  }

  predicate Protects(g: Stretch) { g.Caret? || g.InQuotes? }

  /** The word after one more stretch. */
  function With(word: Option<Word>, g: Stretch): Word {
    var w := if word.Some? then word.value else Word("", false, "");
    Word(w.text + Meant(g), w.quoted || Protects(g), w.raw + Written(g))
  }

  predicate Outside(st: Lex) { !st.inQuote && !st.argQuote }

  lemma OneStep(st: Lex, s: string, rest: string, action: Action)
    requires |s| > 0 && Decide(st, s + rest) == (action, |s|)
    ensures Run(st, s + rest) == Run(Perform(st, action), rest)
  {
    assert (s + rest)[|s|..] == rest;
  }

  lemma {:induction false} ReadQuoted(st: Lex, text: string, rest: string)
    requires st.inQuote && st.argQuote && st.word.Some? && forall i :: 0 <= i < |text| ==> text[i] != '"'
    ensures var w := st.word.value;
      Run(st, text + rest) == Run(st.(word := Some(Word(w.text + text, w.quoted, w.raw + text))), rest)
    decreases |text|
  {
    var w := st.word.value;
    if |text| == 0 {
      assert text + rest == rest && w.text + text == w.text && w.raw + text == w.raw;
    } else {
      var ch, tail := text[0], text[1..];
      assert text + rest == [ch] + (tail + rest);
      OneStep(st, [ch], tail + rest, Add([ch], [ch], false));
      var next := Word(w.text + [ch], w.quoted, w.raw + [ch]);
      assert Perform(st, Add([ch], [ch], false)) == st.(word := Some(next));
      ReadQuoted(st.(word := Some(next)), tail, rest);
      assert next.text + tail == w.text + text && next.raw + tail == w.raw + text;
    }
  }

  lemma DecideQuote(st: Lex, rest: string)
    ensures Decide(st, "\"" + rest) == (Quote("\"", true), 1)
  {
  }

  /** A quotation opens and closes. */
  lemma QuotesWord(st: Lex, text: string)
    requires Outside(st)
    ensures var a := Perform(st, Quote("\"", true));
      && a.inQuote && a.argQuote && a.word.Some?
      && var w := a.word.value;
      Perform(a.(word := Some(Word(w.text + text, w.quoted, w.raw + text))), Quote("\"", true)) ==
      st.(word := Some(With(st.word, InQuotes(text))))
  {
    hide Decide, Flush, TrackerOf;
    var a := Perform(st, Quote("\"", true));
    var w := a.word.value;
    var c := Perform(a.(word := Some(Word(w.text + text, w.quoted, w.raw + text))), Quote("\"", true));
    assert c.word.value.text == With(st.word, InQuotes(text)).text;
    assert c.word.value.raw == With(st.word, InQuotes(text)).raw;
  }

  lemma ReadQuotes(st: Lex, text: string, rest: string)
    requires Outside(st) && IsStretch(InQuotes(text))
    ensures Run(st, Written(InQuotes(text)) + rest) == Run(st.(word := Some(With(st.word, InQuotes(text)))), rest)
  {
    hide Run, Decide, Perform, With;
    QuotesWord(st, text);
    assert Written(InQuotes(text)) + rest == "\"" + (text + ("\"" + rest));
    DecideQuote(st, text + ("\"" + rest));
    OneStep(st, "\"", text + ("\"" + rest), Quote("\"", true));
    var a := Perform(st, Quote("\"", true));
    ReadQuoted(a, text, "\"" + rest);
    var w := a.word.value;
    var b := a.(word := Some(Word(w.text + text, w.quoted, w.raw + text)));
    DecideQuote(b, rest);
    OneStep(b, "\"", rest, Quote("\"", true));
  }

  lemma DecideVariable(st: Lex, s: string, rest: string)
    requires Outside(st) && |s| >= 2 && s[0] == '%' && IsVariable(s, |s|)
    ensures Decide(st, s + rest) == (Add(s, s, false), |s|)
  {
    hide VariableLength;
    var n := |s|;
    assert IsVariable(s + rest, n) by {
      assert forall j :: 0 <= j < n ==> (s + rest)[j] == s[j];
    }
    VariableMeans(s + rest, n);
    hide IsVariable, OpensHere, DecideRedirection, DecideCaret;
    assert (s + rest)[..n] == s && (s + rest)[0] == '%';
  }

  lemma DecideOrdinary(st: Lex, ch: char, rest: string)
    requires Outside(st) && IsOrdinary(ch)
    ensures Decide(st, [ch] + rest) == (Add([ch], [ch], false), 1)
  {
    hide VariableLength, OpensHere, DecideRedirection, DecideCaret;
  }

  lemma DecideEscape(st: Lex, ch: char, rest: string)
    requires Outside(st) && ch != '"' && !IsBlank(ch)
    ensures Decide(st, ['^', ch] + rest) == (Add([ch], ['^', ch], true), 2)
  {
    hide VariableLength, OpensHere, DecideRedirection;
    assert (['^', ch] + rest)[..2] == ['^', ch];
  }

  /** Adding a stretch that one step reads. */
  lemma AddsStretch(st: Lex, g: Stretch)
    requires !g.InQuotes?
    ensures Perform(st, Add(Meant(g), Written(g), Protects(g))) == st.(word := Some(With(st.word, g)))
  {
    hide Flush, TrackerOf;
    if st.word.None? {
      assert "" + Meant(g) == Meant(g) && "" + Written(g) == Written(g);
    }
  }

  /** A stretch is added to the word that is being read. */
  lemma ReadStretch(st: Lex, g: Stretch, rest: string)
    requires Outside(st) && IsStretch(g)
    ensures Run(st, Written(g) + rest) == Run(st.(word := Some(With(st.word, g))), rest)
  {
    hide Run, Decide, Perform, With;
    if g.InQuotes? {
      ReadQuotes(st, g.text, rest);
    } else {
      match g {
        case Letter(ch) => DecideOrdinary(st, ch, rest);
        case Caret(ch) => DecideEscape(st, ch, rest);
        case Percent(name) => DecideVariable(st, Written(g), rest);
      }
      OneStep(st, Written(g), rest, Add(Meant(g), Written(g), Protects(g)));
      AddsStretch(st, g);
    }
  }

  // ----- Words and lines -----

  function WordWritten(gs: seq<Stretch>): string {
    if gs == [] then "" else WordWritten(gs[..|gs| - 1]) + Written(gs[|gs| - 1])
  }

  function WordMeant(gs: seq<Stretch>): string {
    if gs == [] then "" else WordMeant(gs[..|gs| - 1]) + Meant(gs[|gs| - 1])
  }

  predicate AreStretches(gs: seq<Stretch>) { forall i :: 0 <= i < |gs| ==> IsStretch(gs[i]) }

  predicate AnyProtects(gs: seq<Stretch>) { exists i :: 0 <= i < |gs| && Protects(gs[i]) }

  function WordOf(gs: seq<Stretch>): Word { Word(WordMeant(gs), AnyProtects(gs), WordWritten(gs)) }

  lemma WordGrows(gs: seq<Stretch>)
    requires gs != []
    ensures var front, last := gs[..|gs| - 1], gs[|gs| - 1];
      WordOf(gs) == With(if front == [] then None else Some(WordOf(front)), last)
  {
    var front, last := gs[..|gs| - 1], gs[|gs| - 1];
    assert AnyProtects(gs) <==> AnyProtects(front) || Protects(last) by {
      if k :| 0 <= k < |front| && Protects(front[k]) { assert Protects(gs[k]); }
      if k :| 0 <= k < |gs| && Protects(gs[k]) && k < |front| { assert Protects(front[k]); }
    }
    assert front == [] ==> WordMeant(front) == "" && WordWritten(front) == "" && !AnyProtects(front);
    hide Meant, Written, Protects, AnyProtects;
    assert WordMeant(gs) == WordMeant(front) + Meant(last) && WordWritten(gs) == WordWritten(front) + Written(last);
  }

  /** A word is read from its stretches. */
  lemma {:induction false} ReadWord(st: Lex, gs: seq<Stretch>, rest: string)
    requires st.word.None? && Outside(st) && gs != [] && AreStretches(gs)
    ensures Run(st, WordWritten(gs) + rest) == Run(st.(word := Some(WordOf(gs))), rest)
    decreases |gs|
  {
    hide Run, With, WordOf, IsStretch, Written;
    var front, last := gs[..|gs| - 1], gs[|gs| - 1];
    WordGrows(gs);
    assert WordWritten(gs) + rest == WordWritten(front) + (Written(last) + rest);
    if front == [] {
      assert WordWritten(front) + (Written(last) + rest) == Written(last) + rest;
      ReadStretch(st, last, rest);
    } else {
      ReadWord(st, front, Written(last) + rest);
      ReadStretch(st.(word := Some(WordOf(front))), last, rest);
    }
  }

  /** An item of a line, with the blanks behind it. */
  datatype Item = Text(stretches: seq<Stretch>, gap: string) | Symbol(ch: char, gap: string)

  function ItemWritten(item: Item): string {
    match item
    case Text(gs, gap) => WordWritten(gs) + gap
    case Symbol(ch, gap) => [ch] + gap
  }

  function ItemToken(item: Item): Token {
    match item
    case Text(gs, _) => Token(WordMeant(gs), true, WordWritten(gs))
    case Symbol(ch, _) => Separator(ch)
  }

  function DepthBehind(depth: nat, item: Item): nat {
    if item.Symbol? && item.ch == '(' then depth + 1
    else if item.Symbol? && item.ch == ')' && depth > 0 then depth - 1
    else depth
  }

  predicate AreBlanks(gap: string) { forall i :: 0 <= i < |gap| ==> IsBlank(gap[i]) }

  /** The item can be written behind these tokens: a word ends with a blank, a `(`
      stands where a block opens and a `)` where one is open. */
  predicate Fits(tokens: seq<Token>, depth: nat, item: Item) {
    && AreBlanks(item.gap)
    && (match item
        case Text(gs, gap) => gs != [] && AreStretches(gs) && gap != ""
        case Symbol(ch, _) =>
          || ch in {'&', '|'}
          || (ch == '(' && TrackerOf(tokens).OpensBlock())
          || (ch == ')' && depth > 0))
  }

  predicate Line(tokens: seq<Token>, depth: nat, items: seq<Item>)
    decreases |items|
  {
    items == [] ||
    (Fits(tokens, depth, items[0]) && Line(tokens + [ItemToken(items[0])], DepthBehind(depth, items[0]), items[1..]))
  }

  function LineWritten(items: seq<Item>): string {
    if items == [] then "" else ItemWritten(items[0]) + LineWritten(items[1..])
  }

  function LineItems(items: seq<Item>): seq<Token> {
    seq(|items|, i requires 0 <= i < |items| => ItemToken(items[i]))
  }

  function LineDepth(depth: nat, items: seq<Item>): nat
    decreases |items|
  {
    if items == [] then depth else LineDepth(DepthBehind(depth, items[0]), items[1..])
  }

  lemma {:induction false} ReadGap(st: Lex, gap: string, rest: string)
    requires st.word.None? && Outside(st) && AreBlanks(gap)
    ensures Run(st, gap + rest) == Run(st, rest)
    decreases |gap|
  {
    if |gap| == 0 {
      assert gap + rest == rest;
    } else {
      assert gap + rest == [gap[0]] + (gap[1..] + rest);
      OneStep(st, [gap[0]], gap[1..] + rest, EndWord);
      ReadGap(st, gap[1..], rest);
    }
  }

  function Behind(st: Lex, item: Item): Lex {
    st.(tokens := st.tokens + [ItemToken(item)], depth := DepthBehind(st.depth, item))
  }

  /** A word of stretches is never dropped. */
  lemma WordEmitted(st: Lex, gs: seq<Stretch>, gap: string)
    requires st.word == Some(WordOf(gs)) && AreStretches(gs) && gs != []
    ensures Flush(st) == Behind(st.(word := None), Text(gs, gap))
  {
    hide WordWritten, TrackerOf;
    var last := gs[|gs| - 1];
    assert IsStretch(last);
    if Protects(last) {
      assert AnyProtects(gs);
    } else {
      assert |Meant(last)| > 0;
    }
  }

  lemma DecideBlank(st: Lex, b: char, rest: string)
    requires !st.argQuote && IsBlank(b)
    ensures Decide(st, [b] + rest) == (EndWord, 1)
  {
    hide VariableLength, OpensHere, DecideRedirection, DecideCaret;
  }

  lemma ReadText(st: Lex, gs: seq<Stretch>, gap: string, rest: string)
    requires st.word.None? && Outside(st) && Fits(st.tokens, st.depth, Text(gs, gap))
    ensures Run(st, ItemWritten(Text(gs, gap)) + rest) == Run(Behind(st, Text(gs, gap)), rest)
  {
    hide Run, Decide, WordOf, WordWritten, Flush, Behind, AreStretches;
    var more := gap[1..] + rest;
    assert ItemWritten(Text(gs, gap)) + rest == WordWritten(gs) + ([gap[0]] + more);
    ReadWord(st, gs, [gap[0]] + more);
    var a := st.(word := Some(WordOf(gs)));
    DecideBlank(a, gap[0], more);
    OneStep(a, [gap[0]], more, EndWord);
    WordEmitted(a, gs, gap);
    assert a.(word := None) == st;
    BehindRests(st, Text(gs, gap));
    ReadGap(Behind(st, Text(gs, gap)), gap[1..], rest);
  }

  lemma BehindRests(st: Lex, item: Item)
    ensures Behind(st, item).word == st.word && (Outside(Behind(st, item)) <==> Outside(st))
  {
  }

  lemma DecideSymbol(st: Lex, ch: char, gap: string, rest: string)
    requires st.word.None? && Outside(st) && Fits(st.tokens, st.depth, Symbol(ch, gap))
    ensures var action := if ch == '(' then OpenBlock else if ch == ')' then CloseBlock else Separate(ch);
      Decide(st, [ch] + rest) == (action, 1) && Perform(st, action) == Behind(st, Symbol(ch, gap))
  {
    hide VariableLength, DecideRedirection, DecideCaret, TrackerOf;
  }

  lemma ReadSymbol(st: Lex, ch: char, gap: string, rest: string)
    requires st.word.None? && Outside(st) && Fits(st.tokens, st.depth, Symbol(ch, gap))
    ensures Run(st, ItemWritten(Symbol(ch, gap)) + rest) == Run(Behind(st, Symbol(ch, gap)), rest)
  {
    DecideSymbol(st, ch, gap, gap + rest);
    hide Run, Decide, Perform, Behind;
    assert ItemWritten(Symbol(ch, gap)) + rest == [ch] + (gap + rest);
    OneStep(st, [ch], gap + rest, if ch == '(' then OpenBlock else if ch == ')' then CloseBlock else Separate(ch));
    BehindRests(st, Symbol(ch, gap));
    ReadGap(Behind(st, Symbol(ch, gap)), gap, rest);
  }

  lemma {:induction false} ReadLine(st: Lex, items: seq<Item>)
    requires st.word.None? && Outside(st) && Line(st.tokens, st.depth, items)
    ensures Run(st, LineWritten(items)) ==
            st.(tokens := st.tokens + LineItems(items), depth := LineDepth(st.depth, items))
    decreases |items|
  {
    hide Fits, ItemToken, ItemWritten, TrackerOf, Decide;
    if items == [] {
      assert LineItems(items) == [];
    } else {
      var item := items[0];
      match item {
        case Text(gs, gap) => ReadText(st, gs, gap, LineWritten(items[1..]));
        case Symbol(ch, gap) => ReadSymbol(st, ch, gap, LineWritten(items[1..]));
      }
      ReadLine(Behind(st, item), items[1..]);
      assert LineItems(items) == [ItemToken(item)] + LineItems(items[1..]);
      assert st.tokens + LineItems(items) == (st.tokens + [ItemToken(item)]) + LineItems(items[1..]);
    }
  }

  /** A line written as words, separators and block parentheses is read as exactly
      these tokens: a word's text is what its stretches mean, without quotes and
      carets, its raw text is what was written, and the depth counts the blocks. */
  lemma LineReadBack(depth: nat, items: seq<Item>)
    requires Line([], depth, items)
    ensures var st := Run(NewLex(depth), LineWritten(items));
      st.tokens == LineItems(items) && st.depth == LineDepth(depth, items)
  {
    hide Line, LineWritten, Run;
    ReadLine(NewLex(depth), items);
    assert [] + LineItems(items) == LineItems(items);
  }
}
