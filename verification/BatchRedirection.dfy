/**
  Redirections in a line: what their look-ahead sees, and that one which stands
  between words leaves no trace.
 */
module BatchRedirection {
  import opened Basics
  import opened CommandTracking
  import opened BatchText
  import opened BatchLexer

  // ----- Look-ahead stops at a blank -----

  /** The text `s`, a blank, and whatever follows. */
  function Then(s: string, b: char, x: string): string { s + [b] + x }

  predicate Delimits(x: string) { |x| > 0 && IsBlank(x[0]) }

  lemma AppendDrop(s: string, x: string, k: nat)
    requires k <= |s|
    ensures (s + x)[k..] == s[k..] + x
  {
  }

  lemma {:induction false} NameMeets(s: string, rest: string, x: string)
    requires Delimits(x)
    ensures NameLength(s + rest) < |s| ==> NameLength(s + x) == NameLength(s + rest)
    ensures NameLength(s + rest) >= |s| ==> NameLength(s + x) == |s + x| + 1
  {
    if |s| == 0 {
      assert s + x == x;
    } else {
      NameMeets(s[1..], rest, x);
      AppendDrop(s, rest, 1);
      AppendDrop(s, x, 1);
    }
  }

  lemma VariableMeets(s: string, rest: string, x: string)
    requires |s| > 0 && Delimits(x) && VariableLength(s + rest) <= |s|
    ensures VariableLength(s + x) == VariableLength(s + rest)
  {
    NameMeets(s[1..], rest, x);
    AppendDrop(s, rest, 1);
    AppendDrop(s, x, 1);
    assert |s| == 1 ==> (s + x)[1] == x[0];
  }

  lemma {:induction false} BlanksMeet(s: string, rest: string, x: string)
    requires BlankLength(s + rest) < |s|
    ensures BlankLength(s + x) == BlankLength(s + rest)
  {
    AppendDrop(s, rest, 1);
    AppendDrop(s, x, 1);
    if IsBlank(s[0]) {
      BlanksMeet(s[1..], rest, x);
    }
  }

  /** One step of the target scan. */
  lemma TargetStep(s: string, inQuote: bool, inBlock: bool)
    requires |s| > 0
    ensures TargetLength(s, inQuote, inBlock) ==
      if s[0] == '"' then TargetLength(s[1..], !inQuote, inBlock) + 1
      else if inQuote then TargetLength(s[1..], true, inBlock) + 1
      else if s[0] == '^' then (if |s| == 1 then 1 else TargetLength(s[2..], false, inBlock) + 2)
      else if EndsTarget(s[0], inBlock) then 0
      else TargetLength(s[1..], false, inBlock) + 1
  {
  }

  lemma {:induction false} TargetMeets(s: string, rest: string, x: string, inQuote: bool, inBlock: bool)
    requires Delimits(x)
    requires var n := TargetLength(s + rest, inQuote, inBlock); n < |s| || (n == |s| && |rest| > 0)
    ensures TargetLength(s + x, inQuote, inBlock) == TargetLength(s + rest, inQuote, inBlock)
    decreases |s|
  {
    hide TargetLength;
    if |s| == 0 {
      assert s + rest == rest && s + x == x;
      TargetStep(rest, inQuote, inBlock);
      TargetStep(x, inQuote, inBlock);
    } else {
      TargetStep(s + rest, inQuote, inBlock);
      TargetStep(s + x, inQuote, inBlock);
      AppendDrop(s, rest, 1);
      AppendDrop(s, x, 1);
      assert (s + x)[0] == s[0] == (s + rest)[0];
      if s[0] == '"' {
        TargetMeets(s[1..], rest, x, !inQuote, inBlock);
      } else if inQuote {
        TargetMeets(s[1..], rest, x, true, inBlock);
      } else if s[0] == '^' {
        AppendDrop(s, rest, 2);
        AppendDrop(s, x, 2);
        TargetMeets(s[2..], rest, x, false, inBlock);
      } else if !EndsTarget(s[0], inBlock) {
        TargetMeets(s[1..], rest, x, false, inBlock);
      }
    }
  }

  lemma OperatorMeets(s: string, rest: string, x: string)
    requires |s| > 0 && Delimits(x) && OperatorLength(s + rest).0 <= |s|
    ensures OperatorLength(s + x) == OperatorLength(s + rest)
  {
    assert (s + x)[|s|] == x[0];
    assert forall i :: 0 <= i < |s| ==> (s + x)[i] == s[i] == (s + rest)[i];
  }

  /** The redirection `s` ends before its target has begun, or with the line, so
      that text put behind it becomes part of it. */
  predicate Unfinished(s: string, rest: string)
    requires |s| > 0
  {
    var (op, dup) := OperatorLength(s + rest);
    !dup && (rest == "" || op + BlankLength((s + rest)[op..]) == |s|)
  }

  lemma RedirectionMeets(s: string, rest: string, x: string, inBlock: bool)
    requires |s| > 0 && Delimits(x) && RedirectionLength(s + rest, inBlock) <= |s|
    ensures || RedirectionLength(s + x, inBlock) == RedirectionLength(s + rest, inBlock)
            || (RedirectionLength(s + rest, inBlock) == |s| && Unfinished(s, rest))
  {
    hide TargetLength, BlankLength;
    OperatorMeets(s, rest, x);
    var (op, dup) := OperatorLength(s + rest);
    if !dup {
      AppendDrop(s, rest, op);
      AppendDrop(s, x, op);
      var blanks := BlankLength(s[op..] + rest);
      var start := op + blanks;
      if start < |s| {
        BlanksMeet(s[op..], rest, x);
        AppendDrop(s, rest, start);
        AppendDrop(s, x, start);
        var n := TargetLength(s[start..] + rest, false, inBlock);
        if n < |s| - start || |rest| > 0 {
          TargetMeets(s[start..], rest, x, false, inBlock);
        }
      }
    }
  }

  /** A step that ends before `x` is taken whatever follows, unless it is a
      redirection still without its target or a caret at the end of the line. */
  lemma DecideMeets(st: Lex, s: string, rest: string, x: string)
    requires |s| > 0 && Delimits(x) && Decide(st, s + rest).1 <= |s|
    ensures || Decide(st, s + x) == Decide(st, s + rest)
            || (Decide(st, s + rest).1 == |s| && !st.inQuote && (s[0] == '<' || s[0] == '>') && Unfinished(s, rest))
            || (s == "^" && rest == "" && !st.inQuote)
  {
    hide RedirectionLength, VariableLength, OpensHere, TrackerOf;
    var n := Decide(st, s + rest).1;
    assert (s + rest)[..n] == s[..n] == (s + x)[..n];
    if !st.inQuote {
      if s[0] == '%' {
        VariableMeets(s, rest, x);
      } else if s[0] == '<' || s[0] == '>' {
        RedirectionMeets(s, rest, x, st.depth > 0);
      }
    }
  }

  // ----- What an inserted redirection looks like -----

  /** A redirection with an optional handle and a plain target, or one that
      duplicates a handle. */
  datatype Redirection =
    | ToTarget(handle: string, op: string, gap: string, target: string)
    | Duplicate(handle: string, op: string, digit: char)
  {
    predicate Valid() {
      && IsHandle(handle)
      && op in {"<", ">", ">>"}
      && (Duplicate? ==> IsDigit(digit))
      && (ToTarget? ==>
            && (forall i :: 0 <= i < |gap| ==> IsBlank(gap[i]))
            && |target| > 0
            && (forall i :: 0 <= i < |target| ==> IsPlain(target[i])))
    }

    /** Its text after the handle. */
    function Rest(): string {
      if ToTarget? then op + (gap + target) else op + ['&', digit]
    }

    function Text(): string { handle + Rest() }
  }

  predicate IsPlain(ch: char) {
    ch != '"' && ch != '^' && !EndsTarget(ch, true)
  }

  lemma {:induction false} PlainTarget(target: string, after: string, inBlock: bool)
    requires forall i :: 0 <= i < |target| ==> IsPlain(target[i])
    requires |after| > 0 && after[0] != '"' && after[0] != '^' && EndsTarget(after[0], inBlock)
    ensures TargetLength(target + after, false, inBlock) == |target|
  {
    if |target| == 0 {
      assert target + after == after;
    } else {
      AppendDrop(target, after, 1);
      PlainTarget(target[1..], after, inBlock);
    }
  }

  lemma {:induction false} BlankGap(gap: string, rest: string)
    requires forall i :: 0 <= i < |gap| ==> IsBlank(gap[i])
    requires |rest| > 0 && !IsBlank(rest[0])
    ensures BlankLength(gap + rest) == |gap|
  {
    if |gap| > 0 {
      assert (gap + rest)[1..] == gap[1..] + rest;
      BlankGap(gap[1..], rest);
    } else {
      assert gap + rest == rest;
    }
  }

  lemma OperatorAlone(op: string, rest: string)
    requires op in {"<", ">", ">>"} && |rest| > 0 && rest[0] != '>' && rest[0] != '&'
    ensures OperatorLength(op + rest) == (|op|, false)
  {
    assert (op + rest)[|op|] == rest[0];
    assert op[0] == (op + rest)[0];
  }

  lemma OperatorDuplicates(op: string, rest: string)
    requires op in {"<", ">", ">>"} && |rest| > 1 && rest[0] == '&' && IsDigit(rest[1])
    ensures OperatorLength(op + rest) == (|op| + 2, true)
  {
    assert (op + rest)[|op|] == rest[0] && (op + rest)[|op| + 1] == rest[1];
    assert op[0] == (op + rest)[0];
  }

  lemma TargetAfterOperator(op: string, gap: string, after: string, inBlock: bool)
    requires op in {"<", ">", ">>"} && forall i :: 0 <= i < |gap| ==> IsBlank(gap[i])
    requires |after| > 0 && !EndsTarget(after[0], true)
    ensures RedirectionLength(op + (gap + after), inBlock) ==
              |op| + |gap| + TargetLength(after, false, inBlock)
  {
    hide TargetLength, BlankLength, OperatorLength;
    OperatorAlone(op, gap + after);
    assert (op + (gap + after))[|op|..] == gap + after;
    BlankGap(gap, after);
    assert (op + (gap + after))[|op| + |gap|..] == after;
  }

  lemma ThenAssoc(s: string, t: string, b: char, x: string)
    ensures Then(s + t, b, x) == s + Then(t, b, x)
  {
  }

  /** The look-ahead takes the whole redirection and stops at the blank. */
  lemma RestLength(r: Redirection, b: char, x: string, inBlock: bool)
    requires r.Valid() && IsBlank(b)
    ensures RedirectionLength(Then(r.Rest(), b, x), inBlock) == |r.Rest()|
  {
    match r
    case ToTarget(_, op, gap, target) =>
      hide RedirectionLength, TargetLength;
      ThenAssoc(op, gap + target, b, x);
      ThenAssoc(gap, target, b, x);
      TargetAfterOperator(op, gap, Then(target, b, x), inBlock);
      assert Then(target, b, x) == target + ([b] + x);
      PlainTarget(target, [b] + x, inBlock);
    case Duplicate(_, op, digit) =>
      ThenAssoc(op, ['&', digit], b, x);
      OperatorDuplicates(op, Then(['&', digit], b, x));
  }

  // ----- Transparency -----

  /** Between words and outside quotes. */
  predicate AtRest(st: Lex) { st.word.None? && !st.inQuote && !st.argQuote }

  /** A handle read so far as the current word. */
  function HandleWord(handle: string): Option<Word> {
    if handle == "" then None else Some(Word(handle, false, handle))
  }

  /** Nothing, or the word the source accepts in front of an operator. */
  predicate IsHandle(handle: string) {
    handle == "" || IsRedirectPrefix(handle)
  }

  lemma HandleStep(st: Lex, read: string, ch: char, rest: string)
    requires AtRest(st) && (IsDigit(ch) || ch == '*')
    ensures Run(st.(word := HandleWord(read)), [ch] + rest) == Run(st.(word := HandleWord(read + [ch])), rest)
  {
    var at, u := st.(word := HandleWord(read)), [ch] + rest;
    assert u[0] == ch && u[1..] == rest;
    assert Decide(at, u) == (Add([ch], [ch], false), 1);
    if read == "" { assert read + [ch] == [ch]; }
    assert Perform(at, Add([ch], [ch], false)) == st.(word := HandleWord(read + [ch]));
  }

  /** A handle is read as the start of a word. */
  lemma {:induction false} HandleRead(st: Lex, read: string, handle: string, rest: string)
    requires AtRest(st) && forall i :: 0 <= i < |handle| ==> IsDigit(handle[i]) || handle[i] == '*'
    ensures Run(st.(word := HandleWord(read)), handle + rest) == Run(st.(word := HandleWord(read + handle)), rest)
    decreases |handle|
  {
    hide Run;
    if handle == "" {
      assert handle + rest == rest && read + handle == read;
    } else {
      var more := read + [handle[0]];
      assert handle + rest == [handle[0]] + (handle[1..] + rest);
      HandleStep(st, read, handle[0], handle[1..] + rest);
      HandleRead(st, more, handle[1..], rest);
      assert more + handle[1..] == read + handle;
    }
  }

  lemma RedirectionDecided(st: Lex, u: string)
    requires |u| > 0 && (u[0] == '<' || u[0] == '>') && !st.inQuote
    ensures Decide(st, u) == DecideRedirection(st, u)
  {
  }

  /** The operator ends the word, or forgets it as its handle, and takes the
      target with it. */
  lemma OperatorPerformed(st: Lex, handle: string, u: string)
    requires AtRest(st) && IsHandle(handle) && |u| > 0
    ensures var at := st.(word := HandleWord(handle));
      var (action, n) := DecideRedirection(at, u);
      Perform(at, action) == st && n == RedirectionLength(u, st.depth > 0)
  {
  }

  lemma OperatorStep(st: Lex, handle: string, u: string)
    requires AtRest(st) && IsHandle(handle)
    requires |u| > 0 && (u[0] == '<' || u[0] == '>')
    ensures Run(st.(word := HandleWord(handle)), u) == Run(st, u[RedirectionLength(u, st.depth > 0)..])
  {
    RedirectionDecided(st.(word := HandleWord(handle)), u);
    OperatorPerformed(st, handle, u);
  }

  lemma RestStep(st: Lex, handle: string, r: Redirection, b: char, x: string)
    requires AtRest(st) && IsHandle(handle) && r.Valid() && IsBlank(b)
    ensures Run(st.(word := HandleWord(handle)), Then(r.Rest(), b, x)) == Run(st, [b] + x)
  {
    hide Run, RedirectionLength;
    var u := Then(r.Rest(), b, x);
    assert u[0] == r.op[0];
    OperatorStep(st, handle, u);
    RestLength(r, b, x, st.depth > 0);
    assert u[|r.Rest()|..] == [b] + x;
  }

  /** Between words, a redirection followed by a blank leaves no trace. */
  lemma RedirectionVanishes(st: Lex, r: Redirection, b: char, x: string)
    requires AtRest(st) && r.Valid() && IsBlank(b)
    ensures Run(st, Then(r.Text(), b, x)) == Run(st, [b] + x)
  {
    hide Run;
    RestStep(st, r.handle, r, b, x);
    ThenAssoc(r.handle, r.Rest(), b, x);
    HandleRead(st, "", r.handle, Then(r.Rest(), b, x));
    assert "" + r.handle == r.handle && st.(word := HandleWord("")) == st;
  }

  lemma BlankStep(st: Lex, b: char, x: string)
    requires IsBlank(b) && !st.argQuote
    ensures Run(st, [b] + x) == Run(Flush(st), x)
  {
    assert ([b] + x)[1..] == x;
  }

  lemma VanishesAtRest(st: Lex, r: Redirection, b: char, x: string)
    requires AtRest(st) && r.Valid() && IsBlank(b)
    ensures Run(st, Then(r.Text(), b, x)) == Run(st, x)
  {
    RedirectionVanishes(st, r, b, x);
    BlankStep(st, b, x);
  }
}
