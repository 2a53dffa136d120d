/**
  Which packages a choco command names, said position by position: the parser's
  accumulating loop is compared with the role each argument word plays.
 */
module PackageArguments {
  import opened Basics
  import opened CommandTracking
  import opened BatchText
  import opened ChocoParser

  function Quotes(batch: bool): set<char> { if batch then {'"'} else {'"', '\''} }

  /** An option that takes its value from the next argument. */
  predicate WantsValue(text: string, batch: bool) {
    && IsOption(text)
    && SplitOption(text, Quotes(batch)).1.None? && SplitOption(text, Quotes(batch)).0 in OPTIONS_WITH_VALUE
  }

  /** Argument j is the value of the option before it. */
  predicate IsValue(tokens: seq<Token>, batch: bool, start: nat, j: nat)
    requires j <= |tokens|
    decreases j
  {
    start < j && WantsValue(tokens[j - 1].text, batch) && !IsValue(tokens, batch, start, j - 1)
  }

  /** Argument j is read as an option. */
  predicate IsOptionAt(tokens: seq<Token>, batch: bool, start: nat, j: nat)
    requires j < |tokens|
  {
    IsOption(tokens[j].text) && !IsValue(tokens, batch, start, j)
  }

  /** Argument j names a package: neither an option nor the value of one. */
  predicate IsName(tokens: seq<Token>, batch: bool, start: nat, j: nat)
    requires j < |tokens|
  {
    !IsOption(tokens[j].text) && !IsValue(tokens, batch, start, j)
  }

  /** The IDs named by the arguments from `start` up to k, in order. */
  function Names(tokens: seq<Token>, batch: bool, start: nat, k: nat): seq<string>
    requires start <= k <= |tokens|
    decreases k
  {
    if k == start then []
    else Names(tokens, batch, start, k - 1) +
         if IsName(tokens, batch, start, k - 1) then OptionSeq(NormalizePackageID(tokens[k - 1].text)) else []
  }

  /** The value of the option at j, if it has one. */
  function ValueAt(tokens: seq<Token>, batch: bool, j: nat, end: nat): Option<string>
    requires j < end <= |tokens|
  {
    var inline := SplitOption(tokens[j].text, Quotes(batch)).1;
    if inline.Some? then inline
    else if WantsValue(tokens[j].text, batch) && j + 1 < end then Some(tokens[j + 1].text)
    else None
  }

  /** The option at j pins a version. */
  predicate PinsVersion(tokens: seq<Token>, batch: bool, start: nat, j: nat, end: nat)
    requires j < end <= |tokens|
  {
    && IsOptionAt(tokens, batch, start, j)
    && SplitOption(tokens[j].text, Quotes(batch)).0 in {"version"}
    && ValueAt(tokens, batch, j, end).Some?
  }

  /** The version is that of the last option up to k that pins one. */
  ghost predicate IsVersion(
      tokens: seq<Token>, batch: bool, start: nat, k: nat, end: nat, version: string)
    requires start <= k <= end <= |tokens|
  {
    || (version == "" && forall j :: start <= j < k ==> !PinsVersion(tokens, batch, start, j, end))
    || exists j :: LastPin(tokens, batch, start, k, end, j) && version == NormalizeVersion(ValueAt(tokens, batch, j, end).value)
  }

  ghost predicate LastPin(tokens: seq<Token>, batch: bool, start: nat, k: nat, end: nat, j: nat)
    requires start <= k <= end <= |tokens|
  {
    && start <= j < k && PinsVersion(tokens, batch, start, j, end)
    && forall m :: j < m < k ==> !PinsVersion(tokens, batch, start, m, end)
  }

  /** The index behind the last argument. */
  function ArgsEnd(tokens: seq<Token>, j: nat): (end: nat)
    requires j <= |tokens|
    ensures j <= end <= |tokens|
    ensures forall k :: j <= k < end ==> SepOf(tokens[k]).NoSep?
    ensures end < |tokens| ==> !SepOf(tokens[end]).NoSep?
    decreases |tokens| - j
  {
    if j < |tokens| && SepOf(tokens[j]).NoSep? then ArgsEnd(tokens, j + 1) else j
  }

  lemma {:induction false} SameEnd(tokens: seq<Token>, j: nat, k: nat)
    requires j <= |tokens| && j <= k <= ArgsEnd(tokens, j)
    ensures ArgsEnd(tokens, k) == ArgsEnd(tokens, j)
    decreases |tokens| - j
  {
    if j < k {
      SameEnd(tokens, j + 1, k);
    }
  }

  /** The loop's state after it has read the arguments before j. */
  ghost predicate ReadTo(
      tokens: seq<Token>, batch: bool, start: nat, j: nat, ids: seq<string>, version: string)
    requires start <= j <= |tokens|
  {
    var end := ArgsEnd(tokens, start);
    && j <= end && (j < end ==> !IsValue(tokens, batch, start, j))
    && ids == Names(tokens, batch, start, j)
    && IsVersion(tokens, batch, start, j, end, version)
  }

  lemma NextName(tokens: seq<Token>, batch: bool, start: nat, j: nat, ids: seq<string>, version: string)
    requires start <= |tokens| && start <= j < ArgsEnd(tokens, start) && ReadTo(tokens, batch, start, j, ids, version)
    requires !IsOption(tokens[j].text)
    ensures ReadTo(tokens, batch, start, j + 1, ids + OptionSeq(NormalizePackageID(tokens[j].text)), version)
  {
    hide NormalizePackageID, SplitOption, NormalizeVersion, ArgsEnd;
    var end := ArgsEnd(tokens, start);
    assert !PinsVersion(tokens, batch, start, j, end);
    VersionKept(tokens, batch, start, j, j + 1, end, version);
  }

  lemma VersionKept(tokens: seq<Token>, batch: bool, start: nat, j: nat, k: nat, end: nat, version: string)
    requires start <= j <= k <= end <= |tokens| && IsVersion(tokens, batch, start, j, end, version)
    requires forall m :: j <= m < k ==> !PinsVersion(tokens, batch, start, m, end)
    ensures IsVersion(tokens, batch, start, k, end, version)
  {
    hide IsOptionAt, ValueAt, NormalizeVersion;
    if p :| LastPin(tokens, batch, start, j, end, p) && version == NormalizeVersion(ValueAt(tokens, batch, p, end).value) {
      assert LastPin(tokens, batch, start, k, end, p);
    }
  }

  lemma VersionPinned(tokens: seq<Token>, batch: bool, start: nat, j: nat, k: nat, end: nat)
    requires start <= j < k <= end <= |tokens| && PinsVersion(tokens, batch, start, j, end)
    requires forall m :: j < m < k ==> !PinsVersion(tokens, batch, start, m, end)
    ensures IsVersion(tokens, batch, start, k, end, NormalizeVersion(ValueAt(tokens, batch, j, end).value))
  {
    hide PinsVersion, ValueAt, NormalizeVersion;
    assert LastPin(tokens, batch, start, k, end, j);
  }

  /** An option and, if it takes one, its value. */
  lemma NextOption(tokens: seq<Token>, batch: bool, start: nat, j: nat, ids: seq<string>, version: string)
    requires start <= |tokens| && start <= j < ArgsEnd(tokens, start) && ReadTo(tokens, batch, start, j, ids, version)
    requires IsOption(tokens[j].text)
    ensures var end := ArgsEnd(tokens, start);
      var next := if WantsValue(tokens[j].text, batch) && j + 1 < end then j + 2 else j + 1;
      var value := ValueAt(tokens, batch, j, end);
      var pins := SplitOption(tokens[j].text, Quotes(batch)).0 in {"version"} && value.Some?;
      ReadTo(tokens, batch, start, next, ids, if pins then NormalizeVersion(value.value) else version)
  {
    hide NormalizePackageID, SplitOption, NormalizeVersion, ArgsEnd;
    var end := ArgsEnd(tokens, start);
    var next := if WantsValue(tokens[j].text, batch) && j + 1 < end then j + 2 else j + 1;
    assert next == j + 2 ==> IsValue(tokens, batch, start, j + 1);
    assert Names(tokens, batch, start, j + 1) == ids;
    assert next < end ==> !IsValue(tokens, batch, start, next);
    if PinsVersion(tokens, batch, start, j, end) {
      VersionPinned(tokens, batch, start, j, next, end);
    } else {
      VersionKept(tokens, batch, start, j, next, end, version);
    }
  }

  lemma {:induction false} ArgsFrom(
      tokens: seq<Token>, batch: bool, start: nat, j: nat, ids: seq<string>, version: string)
    requires start <= j <= |tokens| && ReadTo(tokens, batch, start, j, ids, version)
    ensures var args, end := ParseArgs(tokens, batch, j, ids, version), ArgsEnd(tokens, start);
      && args.end == end
      && args.ids == Names(tokens, batch, start, end)
      && IsVersion(tokens, batch, start, end, end, args.version)
    decreases |tokens| - j
  {
    hide NormalizePackageID, SplitOption, NormalizeVersion, IsVersion, Names;
    var end := ArgsEnd(tokens, start);
    SameEnd(tokens, start, j);
    if j < end {
      if IsOption(tokens[j].text) {
        NextOption(tokens, batch, start, j, ids, version);
        var value := ValueAt(tokens, batch, j, end);
        var pins := SplitOption(tokens[j].text, Quotes(batch)).0 in {"version"} && value.Some?;
        var takes := WantsValue(tokens[j].text, batch) && j + 1 < end;
        assert takes <==> WantsValue(tokens[j].text, batch) && IsArgument(tokens, j + 1);
        ArgsFrom(tokens, batch, start, if takes then j + 2 else j + 1, ids,
                 if pins then NormalizeVersion(value.value) else version);
      } else {
        NextName(tokens, batch, start, j, ids, version);
        ArgsFrom(tokens, batch, start, j + 1, ids + OptionSeq(NormalizePackageID(tokens[j].text)), version);
      }
    }
  }

  /** The arguments of a command run to the next separator.  The packages are, in
      order, the normalised IDs of exactly the words among them that are neither an
      option nor the value of one; the version is the one pinned last. */
  lemma ArgsMeaning(tokens: seq<Token>, batch: bool, start: nat)
    requires start <= |tokens|
    ensures var args, end := ParseArgs(tokens, batch, start, [], ""), ArgsEnd(tokens, start);
      && args.end == end
      && args.ids == Names(tokens, batch, start, end)
      && IsVersion(tokens, batch, start, end, end, args.version)
  {
    hide NormalizePackageID, SplitOption, NormalizeVersion;
    ArgsFrom(tokens, batch, start, start, [], "");
  }

  /** The ID is named by the word at j. */
  predicate NamedAt(tokens: seq<Token>, batch: bool, start: nat, j: nat, id: string)
    requires j < |tokens|
  {
    IsName(tokens, batch, start, j) && NormalizePackageID(tokens[j].text) == Some(id)
  }

  lemma {:induction false} NamesMembers(tokens: seq<Token>, batch: bool, start: nat, k: nat, id: string)
    requires start <= k <= |tokens|
    ensures id in Names(tokens, batch, start, k) <==> exists j :: start <= j < k && NamedAt(tokens, batch, start, j, id)
    decreases k
  {
    hide NormalizePackageID, IsName;
    if start < k {
      NamesMembers(tokens, batch, start, k - 1, id);
      assert id in Names(tokens, batch, start, k) <==>
             id in Names(tokens, batch, start, k - 1) || NamedAt(tokens, batch, start, k - 1, id);
    }
  }

  lemma {:induction false} WithVersionAt(ids: seq<string>, version: string)
    ensures |WithVersion(ids, version)| == |ids|
    ensures forall k :: 0 <= k < |ids| ==> WithVersion(ids, version)[k] == Entry(ids[k], version)
  {
    if |ids| > 0 {
      WithVersionAt(ids[1..], version);
    }
  }

  /** What one command reports: each package it names, with the version it pins. */
  lemma CommandReports(tokens: seq<Token>, batch: bool, i: nat) returns (version: string)
    requires i < |tokens|
    ensures ArgStart(tokens, i).None? ==> EntriesAt(tokens, batch, i) == []
    ensures ArgStart(tokens, i).Some? ==>
      var a := ArgStart(tokens, i).value;
      && i < a <= |tokens|
      && var end := ArgsEnd(tokens, a);
         var names := Names(tokens, batch, a, end);
         && IsVersion(tokens, batch, a, end, end, version)
         && |EntriesAt(tokens, batch, i)| == |names|
         && forall k :: 0 <= k < |names| ==> EntriesAt(tokens, batch, i)[k] == Entry(names[k], version)
  {
    hide NormalizePackageID, SplitOption, NormalizeVersion, IsVersion, Names, ParseArgs;
    version := "";
    match ArgStart(tokens, i) {
      case None =>
      case Some(a) =>
        ArgsAreWords(tokens, batch, i);
        ArgsMeaning(tokens, batch, a);
        var args := ParseArgs(tokens, batch, a, [], "");
        version := args.version;
        WithVersionAt(args.ids, args.version);
    }
  }

  /** A choco command at i that installs or upgrades what its arguments, from a
      on, name: `cinst` or `cup`, or `choco` with one of these verbs. */
  predicate InstallsFrom(tokens: seq<Token>, i: nat, a: nat) {
    && i < a <= |tokens|
    && var name := CommandName(tokens[i].text);
       || (name in {"cinst", "cup"} && a == i + 1)
       || (name in {"choco"} && a == i + 2 && Lower(tokens[i + 1].text) in {"install", "upgrade"})
  }

  /** The command at i reports the entry: one of its arguments names the package,
      and the entry carries the version the command pins. */
  ghost predicate ReportedAt(tokens: seq<Token>, batch: bool, i: nat, entry: Entry) {
    exists a: nat :: InstallsFrom(tokens, i, a) && ReportedFrom(tokens, batch, a, entry)
  }

  ghost predicate ReportedFrom(tokens: seq<Token>, batch: bool, a: nat, entry: Entry)
    requires a <= |tokens|
  {
    var end := ArgsEnd(tokens, a);
    && IsVersion(tokens, batch, a, end, end, entry.version)
    && exists j :: a <= j < end && NamedAt(tokens, batch, a, j, entry.name)
  }

  lemma ArgStartMeans(tokens: seq<Token>, i: nat, a: nat)
    requires i < |tokens|
    ensures ArgStart(tokens, i) == Some(a) <==> InstallsFrom(tokens, i, a)
  {
    hide CommandName, Lower;
  }

  /** A command pins one version only. */
  lemma OneVersion(tokens: seq<Token>, batch: bool, start: nat, end: nat, v: string, w: string)
    requires start <= end <= |tokens|
    requires IsVersion(tokens, batch, start, end, end, v) && IsVersion(tokens, batch, start, end, end, w)
    ensures v == w
  {
    hide PinsVersion, ValueAt, NormalizeVersion;
    if exists j :: LastPin(tokens, batch, start, end, end, j) {
      var j :| LastPin(tokens, batch, start, end, end, j);
      assert forall k :: LastPin(tokens, batch, start, end, end, k) ==> k == j;
    }
  }

  lemma ReportedEntries(tokens: seq<Token>, batch: bool, i: nat, entry: Entry)
    requires i < |tokens|
    ensures entry in EntriesAt(tokens, batch, i) <==> ReportedAt(tokens, batch, i, entry)
  {
    hide NormalizePackageID, SplitOption, NormalizeVersion, IsVersion, Names, EntriesAt, NamedAt, ArgStart, InstallsFrom;
    var version := CommandReports(tokens, batch, i);
    forall b: nat ensures ArgStart(tokens, i) == Some(b) <==> InstallsFrom(tokens, i, b) {
      ArgStartMeans(tokens, i, b);
    }
    if ArgStart(tokens, i).Some? {
      var a := ArgStart(tokens, i).value;
      var end := ArgsEnd(tokens, a);
      var names := Names(tokens, batch, a, end);
      NamesMembers(tokens, batch, a, end, entry.name);
      if ReportedAt(tokens, batch, i, entry) {
        OneVersion(tokens, batch, a, end, version, entry.version);
        var k :| 0 <= k < |names| && names[k] == entry.name;
        assert EntriesAt(tokens, batch, i)[k] == entry;
      }
    }
  }

  lemma {:induction false} FlatMapMembers(f: nat -> seq<Entry>, n: nat, entry: Entry)
    ensures entry in FlatMap(f, n) <==> exists i: nat :: i < n && entry in f(i)
  {
    if n > 0 {
      FlatMapMembers(f, n - 1, entry);
      assert entry in FlatMap(f, n) <==> entry in FlatMap(f, n - 1) || entry in f(n - 1);
    }
  }

  /** A line reports an entry exactly when some word in command position is a choco
      install or upgrade command whose arguments name that package and pin that
      version. */
  lemma LineReports(tokens: seq<Token>, batch: bool, entry: Entry)
    ensures entry in AllEntries(tokens, batch) <==>
      exists i: nat :: i < |tokens| && IsCommandWord(batch, Shapes(tokens), i) && ReportedAt(tokens, batch, i, entry)
  {
    hide EntriesAt, ReportedAt, IsCommandWord;
    var report := Reporter(tokens, Shapes(tokens), batch);
    FlatMapMembers(report, |tokens|, entry);
    forall i: nat | i < |tokens|
      ensures entry in report(i) <==> IsCommandWord(batch, Shapes(tokens), i) && ReportedAt(tokens, batch, i, entry)
    {
      ReportedEntries(tokens, batch, i, entry);
    }
  }
}
