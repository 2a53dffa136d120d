/**
  Reads package IDs and version pins from the tokens of one logical line.  The
  parser runs a command tracker of its own and skips the arguments of every
  choco command it finds.
 */
module ChocoParser {
  import opened Basics
  import opened CommandTracking
  import opened BatchText

  datatype Entry = Entry(name: string, version: string)

  // ----- Words -----

  /** White space as Go's TrimSpace sees it. */
  predicate IsSpace(ch: char) {
    || ch in {'\t', '\n', '\U{000B}', '\U{000C}', '\r', ' ', '\U{0085}', '\U{00A0}', '\U{1680}'}
    || '\U{2000}' <= ch <= '\U{200A}'
    || ch in {'\U{2028}', '\U{2029}', '\U{202F}', '\U{205F}', '\U{3000}'}
  }

  predicate AllSpace(s: string) { forall i :: 0 <= i < |s| ==> IsSpace(s[i]) }

  function TrimLeft(s: string): string {
    if |s| > 0 && IsSpace(s[0]) then TrimLeft(s[1..]) else s
  }

  function TrimRight(s: string): string {
    if |s| > 0 && IsSpace(s[|s| - 1]) then TrimRight(s[..|s| - 1]) else s
  }

  function TrimSpace(s: string): string { TrimRight(TrimLeft(s)) }

  function DropWhile(s: string, cut: set<char>): string {
    if |s| > 0 && s[0] in cut then DropWhile(s[1..], cut) else s
  }

  function DropEndWhile(s: string, cut: set<char>): string {
    if |s| > 0 && s[|s| - 1] in cut then DropEndWhile(s[..|s| - 1], cut) else s
  }

  /** Index of the first character in `stop`, or the length. */
  function IndexAny(s: string, stop: set<char>): (n: nat)
    ensures n <= |s|
  {
    if |s| == 0 || s[0] in stop then 0 else IndexAny(s[1..], stop) + 1
  }

  function BaseName(s: string): string {
    if |s| > 0 && s[|s| - 1] !in {'\\', '/'} then BaseName(s[..|s| - 1]) + [s[|s| - 1]] else ""
  }

  function TrimExe(s: string): string {
    if |s| >= 4 && s[|s| - 4..] in {".exe"} then s[..|s| - 4] else s
  }

  function CommandName(text: string): string { TrimExe(Lower(BaseName(TrimAt(text)))) }

  predicate IsAlnum(ch: char) { 'a' <= ch <= 'z' || 'A' <= ch <= 'Z' || IsDigit(ch) }

  predicate Matches(s: string, extra: set<char>) {
    |s| > 0 && IsAlnum(s[0]) && forall i :: 0 <= i < |s| ==> IsAlnum(s[i]) || s[i] in extra
  }

  function NormalizeVersion(raw: string): string {
    var version := TrimSpace(raw);
    if |version| > 64 || !Matches(version, {'.', '_', '+', '-'}) then "" else version
  }

  function NormalizePackageID(raw: string): Option<string> {
    var id := TrimSpace(raw);
    if |id| > 100 || !Matches(id, {'.', '_', '-'}) || Lower(id) in {"all"} then None else Some(Lower(id))
  }

  // ----- Options -----

  const OPTIONS_WITH_VALUE: set<string> := {
    "version", "s", "source", "params", "parameters", "pkgparameters", "packageparameters",
    "package-parameters", "package-parameters-sensitive", "p", "ia", "installargs", "installarguments",
    "install-args", "install-arguments", "install-arguments-sensitive", "checksum", "checksum64",
    "checksum-type", "checksumtype", "checksum-type64", "checksumtype64", "u", "user", "password", "cert",
    "certpassword", "c", "cache", "cache-location", "cachelocation", "proxy", "proxy-user", "proxy-password",
    "proxy-bypass-list", "t", "timeout", "execution-timeout", "download-checksum", "download-checksum64",
    "download-checksum-type", "download-checksum-type64", "log-file", "pin-reason", "pinreason", "except",
    "arch", "architecture", "output-directory", "od", "outputdirectory"}

  predicate IsOption(text: string) { |text| > 0 && text[0] in {'-', '/'} }

  /** Name and, if written with `=` or `:`, value of an option. */
  function SplitOption(text: string, quotes: set<char>): (string, Option<string>) {
    var name := DropWhile(text, {'-', '/'});
    var idx := IndexAny(name, {'=', ':'});
    if idx < |name|
    then (Lower(name[..idx]), Some(DropEndWhile(DropWhile(name[idx + 1..], quotes), quotes)))
    else (Lower(name), None)
  }

  // ----- Arguments of one command -----

  predicate IsArgument(tokens: seq<Token>, j: nat) { j < |tokens| && SepOf(tokens[j]).NoSep? }

  /** Index of the first argument of the choco install or upgrade command whose
      verb stands at `i`, if one does. */
  function ArgStart(tokens: seq<Token>, i: nat): Option<nat>
    requires i < |tokens|
  {
    var name := CommandName(tokens[i].text);
    if name in {"cinst", "cup"} then Some(i + 1)
    else if name in {"choco"} && i + 1 < |tokens| && Lower(tokens[i + 1].text) in {"install", "upgrade"}
    then Some(i + 2)
    else None
  }

  /** What the arguments from `j` on name, where they end, and the version they
      pin. */
  datatype Args = Args(ids: seq<string>, version: string, end: nat)

  function ParseArgs(tokens: seq<Token>, batch: bool, j: nat, ids: seq<string>, version: string): (r: Args)
    requires j <= |tokens|
    ensures j <= r.end <= |tokens|
    ensures forall k :: j <= k < r.end ==> SepOf(tokens[k]).NoSep?
    ensures r.end < |tokens| ==> !SepOf(tokens[r.end]).NoSep?
    decreases |tokens| - j
  {
    if !IsArgument(tokens, j) then Args(ids, version, j)
    else if IsOption(tokens[j].text) then
      var (option, inline) := SplitOption(tokens[j].text, if batch then {'"'} else {'"', '\''});
      var takesNext := inline.None? && option in OPTIONS_WITH_VALUE && IsArgument(tokens, j + 1);
      var value := if takesNext then Some(tokens[j + 1].text) else inline;
      ParseArgs(tokens, batch, if takesNext then j + 2 else j + 1, ids,
                if option in {"version"} && value.Some? then NormalizeVersion(value.value) else version)
    else
      ParseArgs(tokens, batch, j + 1, ids + OptionSeq(NormalizePackageID(tokens[j].text)), version)
  }

  function WithVersion(ids: seq<string>, version: string): seq<Entry> {
    if |ids| == 0 then [] else [Entry(ids[0], version)] + WithVersion(ids[1..], version)
  }

  function EntriesAt(tokens: seq<Token>, batch: bool, i: nat): seq<Entry>
    requires i < |tokens|
  {
    match ArgStart(tokens, i)
    case None => []
    case Some(a) =>
      var args := ParseArgs(tokens, batch, a, [], "");
      WithVersion(args.ids, args.version)
  }

  // ----- The reference reading -----

  function FlatMap(f: nat -> seq<Entry>, n: nat): seq<Entry> {
    if n == 0 then [] else FlatMap(f, n - 1) + f(n - 1)
  }

  /** The entries reported at a position: those of a word that a tracker fed with
      all tokens finds in command position. */
  function Reporter(tokens: seq<Token>, line: seq<Shape>, batch: bool): nat -> seq<Entry>
    requires |line| == |tokens|
  {
    (i: nat) => if i < |tokens| && IsCommandWord(batch, line, i) then EntriesAt(tokens, batch, i) else []
  }

  /** The entries of a line, without skipping any token. */
  function AllEntries(tokens: seq<Token>, batch: bool): seq<Entry> {
    FlatMap(Reporter(tokens, Shapes(tokens), batch), |tokens|)
  }

  /** Everything between a choco verb and the end of its arguments is a word. */
  lemma ArgsAreWords(tokens: seq<Token>, batch: bool, i: nat)
    requires i < |tokens| && ArgStart(tokens, i).Some?
    ensures var a := ArgStart(tokens, i).value;
      && i < a <= |tokens|
      && forall k :: i < k < ParseArgs(tokens, batch, a, [], "").end ==> SepOf(tokens[k]).NoSep?
  {
    if i + 1 < |tokens| {
      LowerChars(tokens[i + 1].text);
    }
  }

  lemma {:induction false} FlatMapSkips(f: nat -> seq<Entry>, i: nat, j: nat)
    requires i <= j && forall k :: i <= k < j ==> f(k) == []
    ensures FlatMap(f, j) == FlatMap(f, i)
    decreases j
  {
    if i < j { FlatMapSkips(f, i, j - 1); }
  }

  /** Reads the command whose verb may stand at `i` and tells where the parser
      goes on: behind the command's arguments. */
  method ParseCommand(tokens: seq<Token>, batch: bool, i: nat) returns (found: seq<Entry>, next: nat)
    requires i < |tokens|
    ensures found == EntriesAt(tokens, batch, i)
    ensures i < next <= |tokens|
    ensures forall k :: i < k < next ==> SepOf(tokens[k]).NoSep?
  {
    var argStart := ArgStart(tokens, i);
    if argStart.None? {
      return [], i + 1;
    }
    ArgsAreWords(tokens, batch, i);
    var args := ParseArgs(tokens, batch, argStart.value, [], "");
    return WithVersion(args.ids, args.version), args.end;
  }

  /** What the parser's loop needs to know of the shapes. */
  ghost predicate SameSeparators(tokens: seq<Token>, line: seq<Shape>) {
    |line| == |tokens| && forall k :: 0 <= k < |line| ==> line[k].IsSeparator() == !SepOf(tokens[k]).NoSep?
  }

  /** What the reference reading reports at each position. */
  ghost predicate Reports(report: nat -> seq<Entry>, tokens: seq<Token>, line: seq<Shape>, batch: bool)
    requires |line| == |tokens|
  {
    forall i: nat {:trigger IsCommandWord(batch, line, i)} :: i < |tokens| ==>
      report(i) == if IsCommandWord(batch, line, i) then EntriesAt(tokens, batch, i) else []
  }

  /** One turn of the parser's loop: consumes `tokens[i]` and, after a choco
      command, skips its arguments. */
  method ParseStep(tokens: seq<Token>, line: seq<Shape>, batch: bool, tracker: CommandTracker, i: nat,
                   ghost report: nat -> seq<Entry>)
    returns (found: seq<Entry>, next: nat)
    requires SameSeparators(tokens, line) && i < |tokens| && Reports(report, tokens, line, batch)
    requires TrackedTo(tracker.View(), batch, line, i)
    modifies tracker
    ensures i < next <= |tokens| && TrackedTo(tracker.View(), batch, line, next)
    ensures found == report(i) && forall k :: i < k < next ==> report(k) == [] && !line[k].IsSeparator()
    ensures i + 1 < next ==> IsCommandWord(batch, line, i)
  {
    TrackedStep(tracker.View(), batch, line, i);
    CommandWordIdles(tracker.View(), line, i);
    var isCommand := tracker.Next(line, i);
    if !isCommand {
      return [], i + 1;
    }
    found, next := ParseCommand(tokens, batch, i);
    TrackedSkip(tracker.View(), batch, line, i + 1, next);
    forall k | i < k < next ensures report(k) == [] { assert !IsCommandWord(batch, line, k); }
  }

  /** Token k is an argument skipped behind the visited command word at c: nothing
      but words lies between them. */
  ghost predicate SkippedBehind(batch: bool, line: seq<Shape>, visited: map<nat, Tracker>, k: nat, c: nat) {
    && c < k < |line| && c in visited && IsCommandWord(batch, line, c)
    && forall m :: c < m <= k ==> m !in visited && !line[m].IsSeparator()
  }

  /** The skipping parser reports exactly what the reference reading reports.
      `visited` records its tracker at every token it consumes, always the state of
      the tracker that has consumed every token before; the tokens it does not consume
      are the arguments behind a command word it did. */
  method ParseShaped(tokens: seq<Token>, line: seq<Shape>, batch: bool, ghost report: nat -> seq<Entry>)
    returns (entries: seq<Entry>, ghost visited: map<nat, Tracker>)
    requires SameSeparators(tokens, line) && Reports(report, tokens, line, batch)
    ensures entries == FlatMap(report, |tokens|)
    ensures forall k :: k in visited ==> k < |tokens| && TrackedTo(visited[k], batch, line, k)
    ensures forall k :: 0 <= k < |tokens| && k !in visited ==> exists c: nat :: SkippedBehind(batch, line, visited, k, c)
    ensures forall k :: 0 <= k < |tokens| && line[k].IsSeparator() ==> k in visited
  {
    hide TrackedTo, Reports, IsCommandWord;
    var tracker := new CommandTracker(batch);
    TrackedStart(batch, line);
    entries, visited := [], map[];
    var i := 0;
    while i < |tokens|
      invariant 0 <= i <= |tokens| && fresh(tracker)
      invariant TrackedTo(tracker.View(), batch, line, i)
      invariant entries == FlatMap(report, i)
      invariant forall k :: k in visited ==> k < |tokens| && TrackedTo(visited[k], batch, line, k)
      invariant forall k :: k in visited ==> k < i
      invariant forall k :: 0 <= k < i && k !in visited ==> exists c: nat :: SkippedBehind(batch, line, visited, k, c)
    {
      ghost var before := visited;
      visited := visited[i := tracker.View()];
      var found, next := ParseStep(tokens, line, batch, tracker, i, report);
      forall k | 0 <= k < next && k !in visited ensures exists c: nat :: SkippedBehind(batch, line, visited, k, c) {
        if k < i {
          var c: nat :| SkippedBehind(batch, line, before, k, c);
          assert SkippedBehind(batch, line, visited, k, c);
        } else {
          assert SkippedBehind(batch, line, visited, k, i);
        }
      }
      FlatMapSkips(report, i + 1, next);
      entries := entries + found;
      i := next;
    }
  }

  method ParseChocoTokens(tokens: seq<Token>, batch: bool) returns (entries: seq<Entry>)
    ensures entries == AllEntries(tokens, batch)
  {
    ghost var visited;
    entries, visited := ParseShaped(tokens, Shapes(tokens), batch, Reporter(tokens, Shapes(tokens), batch));
  }
}
