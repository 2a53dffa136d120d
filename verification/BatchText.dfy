/**
  The text level of the batch reader: characters, the string comparisons behind
  a token's shape, and the look-ahead over redirections and `%name%` variables.
  Text is a sequence of code points; every character the reader treats specially
  is ASCII, so reading code points and reading the bytes of valid UTF-8 take the
  same branches.
 */
module BatchText {
  import opened CommandTracking

  // ----- Characters and words -----

  predicate IsBlank(ch: char) { ch == ' ' || ch == '\t' || ch == '\r' }

  predicate IsDigit(ch: char) { '0' <= ch <= '9' }

  /** Lower case as far as a comparison with an ASCII word can see it: besides
      A-Z only the dotted capital I and the Kelvin sign map to ASCII letters. */
  function LowerChar(ch: char): char {
    if 'A' <= ch <= 'Z' then (ch as int + 32) as char
    else if ch == '\U{0130}' then 'i'
    else if ch == '\U{212A}' then 'k'
    else ch
  }

  function Lower(s: string): string {
    if |s| == 0 then "" else [LowerChar(s[0])] + Lower(s[1..])
  }

  /** Simple case folding onto ASCII letters: the long s and the Kelvin sign are
      the only characters beyond A-Z. */
  function FoldChar(ch: char): char {
    if 'A' <= ch <= 'Z' then (ch as int + 32) as char
    else if ch == '\U{017F}' then 's'
    else if ch == '\U{212A}' then 'k'
    else ch
  }

  function Fold(s: string): string {
    if |s| == 0 then "" else [FoldChar(s[0])] + Fold(s[1..])
  }

  /** Case-insensitive equality with a lower-case ASCII keyword. */
  predicate EqualFold(s: string, keyword: string) { Fold(s) in {keyword} }

  function TrimAt(s: string): string {
    if |s| > 0 && s[0] == '@' then s[1..] else s
  }

  lemma {:induction false} FoldChars(s: string)
    ensures |Fold(s)| == |s| && forall i :: 0 <= i < |s| ==> Fold(s)[i] == FoldChar(s[i])
  {
    if |s| > 0 { FoldChars(s[1..]); }
  }

  lemma {:induction false} LowerChars(s: string)
    ensures |Lower(s)| == |s| && forall i :: 0 <= i < |s| ==> Lower(s)[i] == LowerChar(s[i])
  {
    if |s| > 0 { LowerChars(s[1..]); }
  }

  const UPPER := "ABCDEFGHIJKLMNOPQRSTUVWXYZ"
  const LOWER := "abcdefghijklmnopqrstuvwxyz"
  const DIGITS := "0123456789"

  /** Both mappings take the capital letters of the alphabet to the small ones, one
      by one; beyond them they move two further characters each and no others. */
  lemma LetterCase(ch: char, i: nat)
    requires i < 26
    ensures LowerChar(UPPER[i]) == LOWER[i] && FoldChar(UPPER[i]) == LOWER[i]
    ensures LowerChar(LOWER[i]) == LOWER[i] && FoldChar(LOWER[i]) == LOWER[i]
    ensures LowerChar('\U{0130}') == 'i' && LowerChar('\U{212A}') == 'k'
    ensures FoldChar('\U{017F}') == 's' && FoldChar('\U{212A}') == 'k'
    ensures ch !in UPPER && ch !in {'\U{0130}', '\U{212A}'} ==> LowerChar(ch) == ch
    ensures ch !in UPPER && ch !in {'\U{017F}', '\U{212A}'} ==> FoldChar(ch) == ch
  {
    CapitalAt(i);
    if 'A' <= ch <= 'Z' {
      CapitalAt(ch as int - 'A' as int);
    }
  }

  lemma CapitalAt(i: nat)
    requires i < 26
    ensures UPPER[i] as int == 'A' as int + i && LOWER[i] as int == 'a' as int + i
  {
  }

  lemma DigitMeans(ch: char)
    ensures IsDigit(ch) <==> ch in DIGITS
  {
    if IsDigit(ch) {
      assert DIGITS[ch as int - '0' as int] == ch;
    }
  }

  // ----- Quotes and escapes -----

  /** The quote and escape rules alone: outside quotes, inside them, or right
      after an unquoted caret. */
  datatype QuoteState = Unquoted | Quoted | Escaped

  function QuoteStep(q: QuoteState, ch: char): QuoteState {
    match q
    case Escaped => Unquoted
    case Quoted => if ch == '"' then Unquoted else Quoted
    case Unquoted => if ch == '"' then Quoted else if ch == '^' then Escaped else Unquoted
  }

  function QuoteRun(q: QuoteState, s: string): QuoteState
    decreases s
  {
    if |s| == 0 then q else QuoteRun(QuoteStep(q, s[0]), s[1..])
  }

  function QuoteOf(inQuote: bool): QuoteState { if inQuote then Quoted else Unquoted }

  // ----- Tokens and their shapes -----

  /** One token of a logical line; `raw` is the source text of a batch word. */
  datatype Token = Token(text: string, literal: bool, raw: string)

  function Separator(ch: char): Token { Token([ch], false, "") }

  function SepOf(t: Token): Sep {
    if t.literal then NoSep
    else if t.text in {"&"} then Amp
    else if t.text in {"|"} then Pipe
    else if t.text in {"("} then Open
    else if t.text in {")"} then Close
    else if t.text in {";", "{", "}", "&&", "||", "="} then OtherSep
    else NoSep
  }

  function VerbOf(text: string): Verb {
    var word := Lower(TrimAt(text));
    if word in {"call", "sudo"} then Wrapper
    else if text in {"@"} then EchoOff
    else if word in {"for"} then For
    else if word in {"if"} then If
    else Other
  }

  /** Whether a raw word holds `==` outside double quotes and caret escapes, and
      whether text follows the first one. */
  function ScanEquals(raw: string, inQuote: bool): (bool, bool) {
    if |raw| == 0 then (false, false)
    else if raw[0] == '"' then ScanEquals(raw[1..], !inQuote)
    else if inQuote then ScanEquals(raw[1..], true)
    else if raw[0] == '^' then (if |raw| == 1 then (false, false) else ScanEquals(raw[2..], false))
    else if raw[0] == '=' && |raw| > 1 && raw[1] == '=' then (true, |raw| > 2)
    else ScanEquals(raw[1..], false)
  }

  function PartOf(raw: string): Part {
    var word := Lower(raw);
    if word in {"/i"} then CaseFlag
    else if word in {"not"} then Negation
    else if word in {"exist", "defined", "errorlevel", "cmdextversion"} then OneOperand
    else if word in {"equ", "neq", "lss", "leq", "gtr", "geq"} then CompareOp
    else
      var (found, tail) := ScanEquals(raw, false);
      if found then Equals(tail) else Plain
  }

  function ShapeOf(t: Token): Shape {
    Shape(SepOf(t), VerbOf(t.text), EqualFold(t.text, "do"), EqualFold(t.text, "else"), PartOf(t.raw))
  }

  function Shapes(tokens: seq<Token>): (line: seq<Shape>)
    ensures |line| == |tokens|
    ensures forall i :: 0 <= i < |line| ==> line[i] == ShapeOf(tokens[i])
  {
    seq(|tokens|, i requires 0 <= i < |tokens| => ShapeOf(tokens[i]))
  }

  /** A `==` at position k that stands outside quotes and is not escaped, when the
      text begins inside or outside a quote. */
  predicate EqualsAt(raw: string, k: nat, inQuote: bool) {
    && k + 2 <= |raw| && raw[k] == '=' && raw[k + 1] == '='
    && QuoteRun(QuoteOf(inQuote), raw[..k]) == Unquoted
  }

  predicate FirstEquals(raw: string, k: nat, inQuote: bool) {
    EqualsAt(raw, k, inQuote) && forall j: nat :: j < k ==> !EqualsAt(raw, j, inQuote)
  }

  /** Reading one more character in front. */
  lemma EqualsShift(raw: string, k: nat, inQuote: bool)
    requires 0 < k && |raw| > 0 && (inQuote || raw[0] != '^')
    ensures EqualsAt(raw, k, inQuote) <==> EqualsAt(raw[1..], k - 1, QuoteStep(QuoteOf(inQuote), raw[0]).Quoted?)
  {
    if k + 2 <= |raw| {
      assert raw[..k][1..] == raw[1..][..k - 1];
    }
  }

  /** Reading one more escaped character in front. */
  lemma EscapeShift(raw: string, k: nat)
    requires 0 < k && |raw| > 1 && raw[0] == '^'
    ensures EqualsAt(raw, k, false) <==> k > 1 && EqualsAt(raw[2..], k - 2, false)
  {
    if k + 2 <= |raw| {
      assert raw[..k][1..] == raw[1..][..k - 1];
      assert QuoteRun(Unquoted, raw[..k]) == QuoteRun(Escaped, raw[1..][..k - 1]);
      if k > 1 {
        assert raw[1..][..k - 1][1..] == raw[2..][..k - 2];
      }
    }
  }

  /** The scan finds the first unquoted, unescaped `==`, or there is none. */
  lemma {:induction false} ScanEqualsMeans(raw: string, inQuote: bool) returns (k: nat)
    ensures var (found, tail) := ScanEquals(raw, inQuote);
      && (found ==> FirstEquals(raw, k, inQuote) && (tail <==> k + 2 < |raw|))
      && (!found ==> forall j: nat :: !EqualsAt(raw, j, inQuote))
    decreases |raw|
  {
    k := 0;
    if |raw| > 1 && !inQuote && raw[0] == '^' {
      var m := ScanEqualsMeans(raw[2..], false);
      k := m + 2;
      forall j: nat | 0 < j ensures EqualsAt(raw, j, false) <==> j > 1 && EqualsAt(raw[2..], j - 2, false) {
        EscapeShift(raw, j);
      }
    } else if |raw| > 1 && (inQuote || raw[0] != '=' || raw[1] != '=') {
      var q := QuoteStep(QuoteOf(inQuote), raw[0]).Quoted?;
      var m := ScanEqualsMeans(raw[1..], q);
      k := m + 1;
      forall j: nat | 0 < j ensures EqualsAt(raw, j, inQuote) <==> EqualsAt(raw[1..], j - 1, q) {
        EqualsShift(raw, j, inQuote);
      }
    }
  }

  /** Whether a raw word of an `if` condition holds the operator `==` outside
      quotes and escapes, and whether text follows the first one. */
  method UnquotedEquals(raw: string) returns (found: bool, tail: bool)
    ensures found <==> exists k: nat :: EqualsAt(raw, k, false)
    ensures found ==> exists k: nat :: FirstEquals(raw, k, false) && (tail <==> k + 2 < |raw|)
    ensures (found, tail) == ScanEquals(raw, false)
  {
    ghost var first := ScanEqualsMeans(raw, false);
    var inQuote, k := false, 0;
    while k < |raw|
      invariant 0 <= k <= |raw|
      invariant ScanEquals(raw, false) == ScanEquals(raw[k..], inQuote)
    {
      if raw[k] == '"' {
        inQuote := !inQuote;
      } else if inQuote {
      } else if raw[k] == '^' {
        if k + 1 == |raw| { return false, false; }
        assert raw[k..][2..] == raw[k + 2..];
        k := k + 1;
      } else if raw[k] == '=' && k + 1 < |raw| && raw[k + 1] == '=' {
        return true, k + 2 < |raw|;
      }
      k := k + 1;
    }
    return false, false;
  }

  /** What a raw word is in an `if` condition: a keyword in any letter case, a word
      with an operator `==` outside quotes and escapes, with or without text behind the
      first one, or an operand. */
  lemma PartMeans(raw: string)
    ensures var part, word := PartOf(raw), Lower(raw);
      && (part.CaseFlag? <==> word == "/i")
      && (part.Negation? <==> word == "not")
      && (part.OneOperand? <==> word in {"exist", "defined", "errorlevel", "cmdextversion"})
      && (part.CompareOp? <==> word in {"equ", "neq", "lss", "leq", "gtr", "geq"})
      && (part.Equals? || part.Plain? <==> word !in KEYWORDS)
      && (word !in KEYWORDS ==> (part.Equals? <==> exists k: nat :: EqualsAt(raw, k, false)))
      && (part.Equals? ==> exists k: nat :: FirstEquals(raw, k, false) && (part.tail <==> k + 2 < |raw|))
  {
    hide Lower, ScanEquals, EqualsAt;
    var k := ScanEqualsMeans(raw, false);
    if ScanEquals(raw, false).0 {
      FirstIsOne(raw, k);
    }
  }

  const KEYWORDS := {"/i", "not", "exist", "defined", "errorlevel", "cmdextversion",
                     "equ", "neq", "lss", "leq", "gtr", "geq"}

  lemma FirstIsOne(raw: string, k: nat)
    requires FirstEquals(raw, k, false)
    ensures EqualsAt(raw, k, false)
  {
  }

  /** The words the tracker knows, in any letter case and behind an `@` or not. */
  lemma VerbMeans(at: string, word: string)
    requires at == "@" || (at == "" && !("@" <= word))
    ensures var verb := VerbOf(at + word);
      && (verb.Wrapper? <==> Lower(word) in {"call", "sudo"})
      && (verb.For? <==> Lower(word) == "for")
      && (verb.If? <==> Lower(word) == "if")
      && (verb.EchoOff? <==> at + word == "@")
  {
    assert TrimAt(at + word) == word;
    if at + word == "@" {
      assert word == "" && Lower(word) == "";
    }
    hide Lower;
  }

  // ----- `%name%` variables -----

  /** Characters that a variable name cannot hold. */
  predicate EndsName(ch: char) { IsBlank(ch) || ch in {'"', '^', '&', '|', '<', '>'} }

  /** Index of the first `%` in `s` if no character before it ends a name, else
      the length of `s` plus one. */
  function NameLength(s: string): (n: nat)
    ensures n < |s| || n == |s| + 1
  {
    if |s| == 0 then 1
    else if s[0] == '%' then 0
    else if EndsName(s[0]) then |s| + 1
    else NameLength(s[1..]) + 1
  }

  /** How many characters the percent expression at the start of `rest` takes. */
  function VariableLength(rest: string): (n: nat)
    requires |rest| > 0
    ensures 1 <= n <= |rest|
  {
    if |rest| == 1 then 1
    else if rest[1] == '%' then 2
    else if rest[1] in {'~', '*'} || IsDigit(rest[1]) then 1
    else if NameLength(rest[1..]) >= |rest| then 1
    else NameLength(rest[1..]) + 2
  }

  lemma {:induction false} NameLengthAt(s: string, k: nat)
    requires k <= |s| && forall j :: 0 <= j < k ==> s[j] != '%'
    ensures (exists j :: 0 <= j < k && EndsName(s[j])) ==> NameLength(s) == |s| + 1
    ensures !(exists j :: 0 <= j < k && EndsName(s[j])) ==> NameLength(s) == k + NameLength(s[k..])
    decreases k
  {
    if k > 0 {
      NameLengthAt(s[1..], k - 1);
      assert s[1..][k - 1..] == s[k..];
      if j :| 0 < j < k && EndsName(s[j]) { assert EndsName(s[1..][j - 1]); }
      if j :| 0 <= j < k - 1 && EndsName(s[1..][j]) { assert EndsName(s[j + 1]); }
    }
  }

  /** The percent sign that opens `rest` begins a variable of n characters: a second
      percent sign closes it, and nothing before that ends the name or makes it a
      script parameter. */
  predicate IsVariable(rest: string, n: nat) {
    && 2 <= n <= |rest| && rest[n - 1] == '%' && rest[1] !in {'~', '*'} && !IsDigit(rest[1])
    && forall j :: 1 <= j < n - 1 ==> rest[j] !in {'%', ' ', '\t', '\r', '"', '^', '&', '|', '<', '>'}
  }

  lemma {:induction false} NameLengthMeans(s: string, k: nat)
    ensures NameLength(s) == k < |s| <==>
              k < |s| && s[k] == '%' && forall j :: 0 <= j < k ==> s[j] != '%' && !EndsName(s[j])
    decreases |s|
  {
    if |s| > 0 && k > 0 && s[0] != '%' && !EndsName(s[0]) {
      NameLengthMeans(s[1..], k - 1);
      if k < |s| && s[k] == '%' && NameLength(s) != k {
        var j :| 0 <= j < k - 1 && (s[1..][j] == '%' || EndsName(s[1..][j]));
        assert s[j + 1] == s[1..][j];
      }
    }
  }

  /** A variable is taken whole; any other percent sign stands for itself. */
  lemma VariableMeans(rest: string, n: nat)
    requires |rest| > 0 && n >= 2
    ensures VariableLength(rest) == n <==> IsVariable(rest, n)
  {
    NameLengthMeans(rest[1..], n - 2);
    if |rest| > 1 && IsVariable(rest, n) {
      forall j | 0 <= j < n - 2 ensures rest[1..][j] != '%' && !EndsName(rest[1..][j]) {
        assert rest[1..][j] == rest[j + 1];
      }
    }
    if |rest| > 1 && VariableLength(rest) == n {
      forall j | 1 <= j < n - 1 ensures rest[j] != '%' && !EndsName(rest[j]) {
        assert rest[j] == rest[1..][j - 1];
      }
    }
  }

  /** The index just past the percent expression at `line[i]`: one search for the
      next percent sign, one check of what lies before it. */
  method BatchVariableEnd(line: string, i: nat) returns (end: nat)
    requires i < |line| && line[i] == '%'
    ensures end == i + VariableLength(line[i..])
  {
    if i + 1 >= |line| { return i + 1; }
    var next := line[i + 1];
    if next == '%' { return i + 2; }
    if next in {'~', '*'} || IsDigit(next) { return i + 1; }
    ghost var rest := line[i..][1..];
    var k := 0;
    while i + 1 + k < |line| && line[i + 1 + k] != '%'
      invariant i + 1 + k <= |line|
      invariant forall j :: 0 <= j < k ==> rest[j] != '%'
    {
      k := k + 1;
    }
    NameLengthAt(rest, k);
    if i + 1 + k == |line| {
      assert rest[k..] == "";
      return i + 1;
    }
    var j := 0;
    while j < k
      invariant 0 <= j <= k
      invariant forall m :: 0 <= m < j ==> !EndsName(rest[m])
    {
      if EndsName(line[i + 1 + j]) {
        assert EndsName(rest[j]);
        return i + 1;
      }
      j := j + 1;
    }
    return i + k + 2;
  }

  // ----- Redirections -----

  predicate IsRedirectPrefix(word: string) {
    word in {"*"} || (|word| > 0 && forall i :: 0 <= i < |word| ==> IsDigit(word[i]))
  }

  /** A handle is a star or a number. */
  lemma HandleMeans(word: string)
    ensures IsRedirectPrefix(word) <==> word == "*" || (word != "" && forall i :: 0 <= i < |word| ==> word[i] in DIGITS)
  {
    forall i | 0 <= i < |word| ensures IsDigit(word[i]) <==> word[i] in DIGITS {
      DigitMeans(word[i]);
    }
  }

  /** Length of the operator at the start of `rest`, and whether it duplicates a
      handle and so takes no target. */
  function OperatorLength(rest: string): (r: (nat, bool))
    requires |rest| > 0
    ensures 1 <= r.0 <= |rest|
  {
    var n := if rest[0] == '>' && |rest| > 1 && rest[1] == '>' then 2 else 1;
    if n + 1 < |rest| && rest[n] == '&' && IsDigit(rest[n + 1]) then (n + 2, true) else (n, false)
  }

  function BlankLength(s: string): (n: nat)
    ensures n <= |s|
    ensures n < |s| ==> !IsBlank(s[n])
    ensures forall i :: 0 <= i < n ==> IsBlank(s[i])
  {
    if |s| > 0 && IsBlank(s[0]) then BlankLength(s[1..]) + 1 else 0
  }

  predicate EndsTarget(ch: char, inBlock: bool) {
    IsBlank(ch) || ch in {'<', '>', '|', '&'} || (ch == ')' && inBlock)
  }

  function TargetLength(s: string, inQuote: bool, inBlock: bool): (n: nat)
    ensures n <= |s|
  {
    if |s| == 0 then 0
    else if s[0] == '"' then TargetLength(s[1..], !inQuote, inBlock) + 1
    else if inQuote then TargetLength(s[1..], true, inBlock) + 1
    else if s[0] == '^' then (if |s| == 1 then 1 else TargetLength(s[2..], false, inBlock) + 2)
    else if EndsTarget(s[0], inBlock) then 0
    else TargetLength(s[1..], false, inBlock) + 1
  }

  /** The target stops in front of position k: outside quotes and escapes stands a
      blank, a separator or, in a block, its closing parenthesis. */
  predicate StopsAt(s: string, k: nat, inQuote: bool, inBlock: bool) {
    && k < |s| && QuoteRun(QuoteOf(inQuote), s[..k]) == Unquoted
    && (s[k] in {' ', '\t', '\r', '<', '>', '|', '&'} || (s[k] == ')' && inBlock))
  }

  lemma StopShift(s: string, k: nat, inQuote: bool, inBlock: bool)
    requires 0 < k && |s| > 0 && (inQuote || s[0] != '^')
    ensures StopsAt(s, k, inQuote, inBlock) <==>
            StopsAt(s[1..], k - 1, QuoteStep(QuoteOf(inQuote), s[0]).Quoted?, inBlock)
  {
    if k < |s| {
      assert s[..k][1..] == s[1..][..k - 1];
    }
  }

  lemma StopEscaped(s: string, k: nat, inBlock: bool)
    requires 0 < k && |s| > 0 && s[0] == '^'
    ensures StopsAt(s, k, false, inBlock) <==> k > 1 && k < |s| && StopsAt(s[2..], k - 2, false, inBlock)
  {
    if k < |s| {
      assert s[..k][1..] == s[1..][..k - 1];
      assert QuoteRun(Unquoted, s[..k]) == QuoteRun(Escaped, s[1..][..k - 1]);
      if k > 1 {
        assert s[1..][..k - 1][1..] == s[2..][..k - 2];
      }
    }
  }

  /** A target runs to the first position at which it stops, or to the end. */
  lemma {:induction false} TargetMeans(s: string, inQuote: bool, inBlock: bool)
    ensures var n := TargetLength(s, inQuote, inBlock);
      (n < |s| ==> StopsAt(s, n, inQuote, inBlock)) && forall k: nat :: k < n ==> !StopsAt(s, k, inQuote, inBlock)
    decreases |s|
  {
    if |s| > 0 {
      assert s[..0] == "";
      assert StopsAt(s, 0, inQuote, inBlock) <==> !inQuote && EndsTarget(s[0], inBlock);
      hide StopsAt, QuoteRun;
      if !inQuote && s[0] == '^' {
        if |s| > 1 { TargetMeans(s[2..], false, inBlock); }
        forall k: nat | 0 < k
          ensures StopsAt(s, k, false, inBlock) <==> k > 1 && k < |s| && StopsAt(s[2..], k - 2, false, inBlock)
        {
          StopEscaped(s, k, inBlock);
        }
      } else if inQuote || !EndsTarget(s[0], inBlock) {
        var q := QuoteStep(QuoteOf(inQuote), s[0]).Quoted?;
        TargetMeans(s[1..], q, inBlock);
        forall k: nat | 0 < k ensures StopsAt(s, k, inQuote, inBlock) <==> StopsAt(s[1..], k - 1, q, inBlock) {
          StopShift(s, k, inQuote, inBlock);
        }
      }
    }
  }

  /** How many characters the redirection at the start of `rest` takes. */
  function RedirectionLength(rest: string, inBlock: bool): (n: nat)
    requires |rest| > 0
    ensures 1 <= n <= |rest|
  {
    var (op, dup) := OperatorLength(rest);
    if dup then op
    else
      var start := op + BlankLength(rest[op..]);
      start + TargetLength(rest[start..], false, inBlock)
  }

  /** The index just past the target that starts at `line[start]`. */
  method TargetEnd(line: string, start: nat, inBlock: bool) returns (end: nat)
    requires start <= |line|
    ensures end == start + TargetLength(line[start..], false, inBlock)
  {
    var k, inQuote := start, false;
    while k < |line|
      invariant start <= k <= |line|
      invariant TargetLength(line[start..], false, inBlock) == k - start + TargetLength(line[k..], inQuote, inBlock)
    {
      var ch := line[k];
      if ch == '"' {
        inQuote := !inQuote;
      } else if inQuote {
      } else if ch == '^' {
        if k + 1 == |line| { return |line|; }
        assert line[k..][2..] == line[k + 2..];
        k := k + 1;
      } else if EndsTarget(ch, inBlock) {
        return k;
      }
      k := k + 1;
    }
    return |line|;
  }

  method SkipBlanks(line: string, start: nat) returns (end: nat)
    requires start <= |line|
    ensures end == start + BlankLength(line[start..])
  {
    end := start;
    while end < |line| && IsBlank(line[end])
      invariant start <= end <= |line|
      invariant BlankLength(line[start..]) == end - start + BlankLength(line[end..])
    {
      end := end + 1;
    }
  }

  lemma TakeSplit(s: string, a: nat, n: nat)
    requires a <= n <= |s|
    ensures s[..n] == s[..a] + s[a..][..n - a]
  {
  }

  lemma DropDrop(s: string, i: nat, j: nat)
    requires i + j <= |s|
    ensures s[i..][j..] == s[i + j..]
  {
  }

  /** The index just past the redirection that starts at `line[i]`. */
  method BatchRedirectionEnd(line: string, i: nat, inBlock: bool) returns (end: nat)
    requires i < |line| && (line[i] == '<' || line[i] == '>')
    ensures end == i + RedirectionLength(line[i..], inBlock)
  {
    hide TargetLength, BlankLength, OperatorLength;
    var (op, dup) := OperatorLength(line[i..]);
    if dup { return i + op; }
    DropDrop(line, i, op);
    var start := SkipBlanks(line, i + op);
    DropDrop(line, i, start - i);
    end := TargetEnd(line, start, inBlock);
  }
}
