/**
  How the words of a choco command may be written: executables, options, package
  IDs and version literals, each put together from its parts and read back.
 */
module PackageWords {
  import opened Basics
  import opened BatchText
  import opened ChocoParser

  lemma {:induction false} BaseNameAt(dir: string, base: string)
    requires dir == "" || dir[|dir| - 1] in {'\\', '/'}
    requires forall i :: 0 <= i < |base| ==> base[i] !in {'\\', '/'}
    ensures BaseName(dir + base) == base
    decreases |base|
  {
    if |base| == 0 {
      assert dir + base == dir;
    } else {
      BaseNameAt(dir, base[..|base| - 1]);
      assert (dir + base)[..|dir + base| - 1] == dir + base[..|base| - 1];
    }
  }

  predicate IsExe(s: string) { |s| >= 4 && s[|s| - 4..] == ".exe" }

  lemma LowerConcat(s: string, t: string)
    ensures Lower(s + t) == Lower(s) + Lower(t)
  {
    LowerChars(s);
    LowerChars(t);
    LowerChars(s + t);
    hide Lower;
  }

  lemma ExeHasNoDirectory(suffix: string)
    requires Lower(suffix) == ".exe"
    ensures forall i :: 0 <= i < |suffix| ==> suffix[i] !in {'\\', '/'}
  {
    LowerChars(suffix);
    hide Lower;
    forall i | 0 <= i < |suffix| ensures suffix[i] !in {'\\', '/'} {
      assert ".exe"[i] == LowerChar(suffix[i]);
    }
  }

  lemma ExeTrimmed(base: string, suffix: string)
    requires Lower(suffix) == ".exe" || (suffix == "" && !IsExe(Lower(base)))
    ensures TrimExe(Lower(base + suffix)) == Lower(base)
  {
    LowerConcat(base, suffix);
    if suffix == "" {
      assert base + suffix == base;
    } else {
      var low := Lower(base) + Lower(suffix);
      hide Lower;
      assert low[|low| - 4..] == ".exe" && low[..|low| - 4] == Lower(base);
    }
  }

  /** An executable is known by its base name in lower case, whether it is written
      with an echo-suppressing `@`, a directory or an `.exe` suffix or not. */
  lemma ExecutableName(at: string, dir: string, base: string, suffix: string)
    requires at == "@" || (at == "" && !("@" <= dir + (base + suffix)))
    requires dir == "" || dir[|dir| - 1] in {'\\', '/'}
    requires forall i :: 0 <= i < |base| ==> base[i] !in {'\\', '/'}
    requires Lower(suffix) == ".exe" || (suffix == "" && !IsExe(Lower(base)))
    ensures CommandName(at + (dir + (base + suffix))) == Lower(base)
  {
    hide Lower, TrimExe, BaseName, IsExe;
    AtTrimmed(at, dir + (base + suffix));
    FileName(dir, base, suffix);
    ExeTrimmed(base, suffix);
  }

  lemma AtTrimmed(at: string, rest: string)
    requires at == "@" || (at == "" && !("@" <= rest))
    ensures TrimAt(at + rest) == rest
  {
    assert at == "" ==> at + rest == rest;
    assert at == "@" ==> (at + rest)[1..] == rest;
  }

  lemma FileName(dir: string, base: string, suffix: string)
    requires dir == "" || dir[|dir| - 1] in {'\\', '/'}
    requires forall i :: 0 <= i < |base| ==> base[i] !in {'\\', '/'}
    requires suffix == "" || Lower(suffix) == ".exe"
    ensures BaseName(dir + (base + suffix)) == base + suffix
  {
    hide Lower, BaseName;
    if suffix != "" {
      ExeHasNoDirectory(suffix);
    }
    BaseNameAt(dir, base + suffix);
  }

  lemma {:induction false} DropWhileAt(front: string, rest: string, cut: set<char>)
    requires forall i :: 0 <= i < |front| ==> front[i] in cut
    requires rest == "" || rest[0] !in cut
    ensures DropWhile(front + rest, cut) == rest
  {
    if |front| == 0 {
      assert front + rest == rest;
    } else {
      assert (front + rest)[1..] == front[1..] + rest;
      DropWhileAt(front[1..], rest, cut);
    }
  }

  lemma {:induction false} DropEndWhileAt(rest: string, back: string, cut: set<char>)
    requires forall i :: 0 <= i < |back| ==> back[i] in cut
    requires rest == "" || rest[|rest| - 1] !in cut
    ensures DropEndWhile(rest + back, cut) == rest
    decreases |back|
  {
    if |back| == 0 {
      assert rest + back == rest;
    } else {
      assert (rest + back)[..|rest + back| - 1] == rest + back[..|back| - 1];
      DropEndWhileAt(rest, back[..|back| - 1], cut);
    }
  }

  lemma {:induction false} IndexAnyAt(front: string, rest: string, stop: set<char>)
    requires forall i :: 0 <= i < |front| ==> front[i] !in stop
    requires rest == "" || rest[0] in stop
    ensures IndexAny(front + rest, stop) == |front|
  {
    if |front| == 0 {
      assert front + rest == rest;
    } else {
      assert (front + rest)[1..] == front[1..] + rest;
      IndexAnyAt(front[1..], rest, stop);
    }
  }

  predicate Only(s: string, chars: set<char>) { forall i :: 0 <= i < |s| ==> s[i] in chars }

  predicate Holds(s: string, chars: set<char>) { exists i :: 0 <= i < |s| && s[i] in chars }

  /** An option without `=` or `:` is its name in lower case, without dashes and
      slashes in front. */
  lemma PlainOption(dashes: string, name: string, quotes: set<char>)
    requires Only(dashes, {'-', '/'}) && !Holds(name, {'=', ':'}) && (name == "" || name[0] !in {'-', '/'})
    ensures SplitOption(dashes + name, quotes) == (Lower(name), None)
  {
    DropWhileAt(dashes, name, {'-', '/'});
    IndexAnyAt(name, "", {'=', ':'});
    assert name + "" == name;
  }

  lemma Dequoted(open: string, value: string, close: string, quotes: set<char>)
    requires Only(open, quotes) && Only(close, quotes)
    requires value == "" || (value[0] !in quotes && value[|value| - 1] !in quotes)
    ensures DropEndWhile(DropWhile(open + (value + close), quotes), quotes) == value
  {
    if value == "" {
      assert open + (value + close) == (open + close) + "";
      DropWhileAt(open + close, "", quotes);
    } else {
      DropWhileAt(open, value + close, quotes);
      DropEndWhileAt(value, close, quotes);
    }
  }

  /** An option with `=` or `:` carries the text behind the first of them, without
      the quotes around it. */
  lemma ValuedOption(dashes: string, name: string, sep: char, open: string, value: string, close: string,
                     quotes: set<char>)
    requires Only(dashes, {'-', '/'}) && !Holds(name, {'=', ':'}) && (name == "" || name[0] !in {'-', '/'})
    requires sep in {'=', ':'} && Only(open, quotes) && Only(close, quotes)
    requires value == "" || (value[0] !in quotes && value[|value| - 1] !in quotes)
    ensures SplitOption(dashes + (name + ([sep] + (open + (value + close)))), quotes) == (Lower(name), Some(value))
  {
    Dequoted(open, value, close, quotes);
    var text := open + (value + close);
    DropWhileAt(dashes, name + ([sep] + text), {'-', '/'});
    IndexAnyAt(name, [sep] + text, {'=', ':'});
    hide DropWhile, DropEndWhile, IndexAny, Lower;
    assert (name + ([sep] + text))[..|name|] == name;
    assert (name + ([sep] + text))[|name| + 1..] == text;
  }

  lemma {:induction false} TrimLeftAt(front: string, rest: string)
    requires AllSpace(front) && (rest == "" || !IsSpace(rest[0]))
    ensures TrimLeft(front + rest) == rest
  {
    if |front| == 0 {
      assert front + rest == rest;
    } else {
      assert (front + rest)[1..] == front[1..] + rest;
      TrimLeftAt(front[1..], rest);
    }
  }

  lemma {:induction false} TrimRightAt(rest: string, back: string)
    requires AllSpace(back) && (rest == "" || !IsSpace(rest[|rest| - 1]))
    ensures TrimRight(rest + back) == rest
    decreases |back|
  {
    if |back| == 0 {
      assert rest + back == rest;
    } else {
      assert (rest + back)[..|rest + back| - 1] == rest + back[..|back| - 1];
      TrimRightAt(rest, back[..|back| - 1]);
    }
  }

  /** The word is a package ID. */
  predicate IsPackageID(word: string) {
    && 0 < |word| <= 100 && IsAlnum(word[0])
    && (forall i :: 0 <= i < |word| ==> IsAlnum(word[i]) || word[i] in {'.', '_', '-'})
    && Lower(word) != "all"
  }

  /** The word is a version literal. */
  predicate IsVersionLiteral(word: string) {
    && 0 < |word| <= 64 && IsAlnum(word[0])
    && forall i :: 0 <= i < |word| ==> IsAlnum(word[i]) || word[i] in {'.', '_', '+', '-'}
  }

  /** The characters of IDs and versions, and white space. */
  lemma CharacterMeans(ch: char)
    ensures IsAlnum(ch) <==> ch in UPPER || ch in LOWER || ch in DIGITS
    ensures IsSpace(ch) <==>
      || ch in {'\t', '\n', '\U{000B}', '\U{000C}', '\r', ' ', '\U{0085}', '\U{00A0}', '\U{1680}'}
      || ch in {'\U{2000}', '\U{2001}', '\U{2002}', '\U{2003}', '\U{2004}', '\U{2005}', '\U{2006}', '\U{2007}',
                '\U{2008}', '\U{2009}', '\U{200A}', '\U{2028}', '\U{2029}', '\U{202F}', '\U{205F}', '\U{3000}'}
  {
    DigitMeans(ch);
    if 'A' <= ch <= 'Z' { CapitalAt(ch as int - 'A' as int); }
    if 'a' <= ch <= 'z' { CapitalAt(ch as int - 'a' as int); }
    if ch in UPPER { var i :| 0 <= i < 26 && UPPER[i] == ch; CapitalAt(i); }
    if ch in LOWER { var i :| 0 <= i < 26 && LOWER[i] == ch; CapitalAt(i); }
  }

  /** A word is an option exactly if it begins with a dash or a slash. */
  lemma OptionMeans(text: string)
    ensures IsOption(text) <==> "-" <= text || "/" <= text
  {
  }

  predicate IsTrimmed(word: string) { word == "" || (!IsSpace(word[0]) && !IsSpace(word[|word| - 1])) }

  lemma Trimmed(front: string, word: string, back: string)
    requires AllSpace(front) && AllSpace(back) && IsTrimmed(word)
    ensures TrimSpace(front + (word + back)) == word
  {
    if word == "" {
      assert front + (word + back) == (front + back) + "";
      TrimLeftAt(front + back, "");
    } else {
      TrimLeftAt(front, word + back);
      TrimRightAt(word, back);
    }
  }

  /** White space around a word does not matter.  What is left is a package, in
      lower case, exactly if it has the form of a package ID. */
  lemma IdMeaning(front: string, word: string, back: string)
    requires AllSpace(front) && AllSpace(back) && IsTrimmed(word)
    ensures NormalizePackageID(front + (word + back)) == if IsPackageID(word) then Some(Lower(word)) else None
  {
    Trimmed(front, word, back);
    hide TrimSpace, Lower, AllSpace, IsTrimmed;
  }

  /** It is a version, as it is written, exactly if it has the form of one. */
  lemma VersionMeaning(front: string, word: string, back: string)
    requires AllSpace(front) && AllSpace(back) && IsTrimmed(word)
    ensures NormalizeVersion(front + (word + back)) == if IsVersionLiteral(word) then word else ""
  {
    Trimmed(front, word, back);
    hide TrimSpace, AllSpace, IsTrimmed;
  }
}
