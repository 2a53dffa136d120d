/**
  The admin audit log: every row carries a digest of its own payload, which
  includes the digest of the row before it.  Digests are free constructors, so
  two of them are equal only if they were made from equal inputs.
 */
module AuditChain {
  import opened Basics

  /** Blank is the empty string, Other a text with neither known prefix or with
      a prefix and no digest behind it. */
  datatype Digest = Blank | Sha(payload: Payload) | Hmac(key: int, payload: Payload) | Other(text: string)

  datatype Payload = Payload(
    version: nat, id: int, action: string, details: string, ip: string, correlation: string,
    createdAt: int, previous: Digest)

  /** Creation times are in microseconds. */
  datatype Row = Row(
    id: int, action: string, details: string, ip: string, correlation: string, createdAt: int,
    previous: Digest, digest: Digest)

  datatype Status = Verified | Broken | Legacy

  function PayloadOf(row: Row): Payload {
    Payload(if row.correlation != "" then 2 else 1, row.id, row.action, row.details, row.ip, row.correlation,
            row.createdAt, row.previous)
  }

  function DigestOf(row: Row, key: Option<int>): Digest {
    match key
    case Some(k) => Hmac(k, PayloadOf(row))
    case None => Sha(PayloadOf(row))
  }

  function RowStatus(row: Row, key: Option<int>): Status {
    match row.digest
    case Blank => Legacy
    case Sha(_) => if row.digest == Sha(PayloadOf(row)) then Verified else Broken
    case Hmac(_, _) =>
      if key.None? then Broken
      else if row.digest == Hmac(key.value, PayloadOf(row)) then Verified else Broken
    case Other(_) => Broken
  }

  /** A row that names a predecessor other than the older row beside it. */
  predicate LinkBroken(row: Row, older: Row) {
    row.previous != Blank && older.digest != Blank && row.previous != older.digest
  }

  // ----- Annotating a page -----

  /** The status shown for row i of a page, newest row first. */
  function Shown(page: seq<Row>, key: Option<int>, i: nat): Status
    requires i < |page|
  {
    if RowStatus(page[i], key).Verified? && i + 1 < |page| && LinkBroken(page[i], page[i + 1]) then Broken
    else RowStatus(page[i], key)
  }

  datatype Entry = Entry(row: Row, status: Status)

  function Rows(entries: seq<Entry>): seq<Row> {
    seq(|entries|, i requires 0 <= i < |entries| => entries[i].row)
  }

  /** The first pass: each row by itself. */
  method ScoreRows(entries: array<Entry>, key: Option<int>)
    modifies entries
    ensures Rows(entries[..]) == Rows(old(entries[..]))
    ensures forall j :: 0 <= j < entries.Length ==> entries[j].status == RowStatus(entries[j].row, key)
  {
    for i := 0 to entries.Length
      invariant forall j :: 0 <= j < entries.Length ==> entries[j].row == old(entries[j].row)
      invariant forall j :: 0 <= j < i ==> entries[j].status == RowStatus(entries[j].row, key)
    {
      entries[i] := entries[i].(status := RowStatus(entries[i].row, key));
    }
  }

  /** The second pass: links between neighbours. */
  method CheckLinks(entries: array<Entry>, ghost key: Option<int>)
    requires forall j :: 0 <= j < entries.Length ==> entries[j].status == RowStatus(entries[j].row, key)
    modifies entries
    ensures Rows(entries[..]) == Rows(old(entries[..]))
    ensures forall j :: 0 <= j < entries.Length ==> entries[j].status == Shown(Rows(old(entries[..])), key, j)
  {
    hide RowStatus, LinkBroken;
    ghost var rows := Rows(entries[..]);
    var i := 0;
    while i + 1 < entries.Length
      invariant 0 <= i <= entries.Length
      invariant forall j :: 0 <= j < entries.Length ==> entries[j].row == rows[j]
      invariant forall j :: 0 <= j < i ==> entries[j].status == Shown(rows, key, j)
      invariant forall j :: i <= j < entries.Length ==> entries[j] == old(entries[j])
    {
      if entries[i].status == Verified && LinkBroken(entries[i].row, entries[i + 1].row) {
        entries[i] := entries[i].(status := Broken);
      }
      i := i + 1;
    }
  }

  method Annotate(entries: array<Entry>, key: Option<int>)
    modifies entries
    ensures Rows(entries[..]) == Rows(old(entries[..]))
    ensures forall i :: 0 <= i < entries.Length ==> entries[i].status == Shown(Rows(old(entries[..])), key, i)
  {
    ScoreRows(entries, key);
    CheckLinks(entries, key);
  }

  // ----- The in-memory store -----

  datatype Event = Event(action: string, details: string, ip: string)

  function Sealed(row: Row, key: Option<int>): Row {
    row.(digest := DigestOf(row, key))
  }

  function NewRow(log: seq<Row>, nextId: int, event: Event, now: int, key: Option<int>): Row {
    var previous := if |log| > 0 then log[|log| - 1].digest else Blank;
    Sealed(Row(nextId + 1, event.action, event.details, event.ip, "", now, previous, Blank), key)
  }

  /** The rows that are not older than the cutoff. */
  function Kept(log: seq<Row>, cutoff: int): seq<Row> {
    if log == [] then []
    else Kept(log[..|log| - 1], cutoff) + if log[|log| - 1].createdAt < cutoff then [] else [log[|log| - 1]]
  }

  /** The rows log[from..to], newest first. */
  function Newest(log: seq<Row>, from: nat, to: nat): seq<Row>
    requires from <= to <= |log|
  {
    seq(to - from, i requires 0 <= i < to - from => log[to - 1 - i])
  }

  /** How many rows a page skips and holds. */
  function PageEnd(n: nat, offset: int): nat {
    if offset <= 0 then n else if offset >= n then 0 else n - offset
  }

  function PageStart(n: nat, limit: int, offset: int): (from: nat)
    ensures from <= PageEnd(n, offset)
  {
    var size := if limit <= 0 || limit > n then n else limit;
    if size >= PageEnd(n, offset) then 0 else PageEnd(n, offset) - size
  }

  class AuditStore {
    var nextAuditId: int
    var auditLog: seq<Row>

    constructor ()
      ensures nextAuditId == 0 && auditLog == []
    {
      nextAuditId, auditLog := 0, [];
    }

    method Insert(event: Event, now: int, key: Option<int>)
      modifies this
      ensures nextAuditId == old(nextAuditId) + 1
      ensures auditLog == old(auditLog) + [NewRow(old(auditLog), old(nextAuditId), event, now, key)]
    {
      nextAuditId := nextAuditId + 1;
      var previous := Blank;
      if |auditLog| > 0 {
        previous := auditLog[|auditLog| - 1].digest;
      }
      var row := Row(nextAuditId, event.action, event.details, event.ip, "", now, previous, Blank);
      row := row.(digest := DigestOf(row, key));
      auditLog := auditLog + [row];
    }

    method Page(limit: int, offset: int) returns (page: seq<Row>)
      ensures page == Newest(auditLog, PageStart(|auditLog|, limit, offset), PageEnd(|auditLog|, offset))
    {
      var n := |auditLog|;
      var size := if limit <= 0 || limit > n then n else limit;
      var skip := if offset < 0 then 0 else offset;
      var i, skipped := n, 0;
      page := [];
      while i > 0 && |page| < size
        invariant 0 <= i <= n && 0 <= skipped <= skip && n - i == skipped + |page|
        invariant |page| > 0 ==> skipped == skip
        invariant |page| <= size
        invariant forall j :: 0 <= j < |page| ==> page[j] == auditLog[n - skip - 1 - j]
      {
        i := i - 1;
        if skipped < skip {
          skipped := skipped + 1;
        } else {
          page := page + [auditLog[i]];
        }
      }
    }

    method Prune(retention: int, now: int) returns (pruned: nat)
      modifies this
      ensures auditLog == if retention <= 0 then old(auditLog) else Kept(old(auditLog), now - retention)
      ensures pruned == |old(auditLog)| - |auditLog|
      ensures nextAuditId == old(nextAuditId)
    {
      if retention <= 0 {
        return 0;
      }
      var cutoff, kept := now - retention, [];
      pruned := 0;
      for i := 0 to |auditLog|
        invariant kept == Kept(auditLog[..i], cutoff) && pruned == i - |kept|
        invariant auditLog == old(auditLog) && nextAuditId == old(nextAuditId)
      {
        assert auditLog[..i + 1][..i] == auditLog[..i];
        if auditLog[i].createdAt < cutoff {
          pruned := pruned + 1;
        } else {
          kept := kept + [auditLog[i]];
        }
      }
      assert auditLog[..|auditLog|] == auditLog;
      auditLog := kept;
    }
  }

  // ----- The chain -----

  /** Every row is sealed, names its predecessor and has a larger ID. */
  ghost predicate Chained(log: seq<Row>, key: Option<int>) {
    && (forall i :: 0 <= i < |log| ==> RowStatus(log[i], key).Verified?)
    && (forall i :: 0 < i < |log| ==> log[i].previous == log[i - 1].digest && log[i].id > log[i - 1].id)
  }

  predicate AllVerified(page: seq<Row>, key: Option<int>) {
    forall i :: 0 <= i < |page| ==> Shown(page, key, i).Verified?
  }

  predicate SomeBroken(page: seq<Row>, key: Option<int>) {
    exists i :: 0 <= i < |page| && Shown(page, key, i).Broken?
  }

  /** A verified row's digest determines all of the row. */
  lemma DigestDetermines(a: Row, b: Row, key: Option<int>)
    requires RowStatus(a, key).Verified? && RowStatus(b, key).Verified? && a.digest == b.digest
    ensures a == b
  {
    assert a.digest.payload == PayloadOf(a) && b.digest.payload == PayloadOf(b);
  }

  lemma {:induction false} IdsIncrease(log: seq<Row>, key: Option<int>, i: nat, j: nat)
    requires Chained(log, key) && i < j < |log|
    ensures log[i].id < log[j].id
  {
    if i + 1 < j {
      IdsIncrease(log, key, i, j - 1);
    }
  }

  /** In a chain, a row's link fits one other row only. */
  lemma LinkFitsOne(log: seq<Row>, key: Option<int>, i: nat, j: nat)
    requires Chained(log, key) && i < j < |log|
    ensures LinkBroken(log[j], log[i]) <==> i + 1 != j
  {
    if i + 1 < j && log[j - 1].digest == log[i].digest {
      DigestDetermines(log[i], log[j - 1], key);
      IdsIncrease(log, key, i, j - 1);
    }
  }

  /** The rows at the given positions, newest first. */
  function Picked(log: seq<Row>, keep: seq<nat>): seq<Row>
    requires forall k :: 0 <= k < |keep| ==> keep[k] < |log|
  {
    seq(|keep|, i requires 0 <= i < |keep| => log[keep[|keep| - 1 - i]])
  }

  ghost predicate Rising(keep: seq<nat>, n: nat) {
    && (forall k :: 0 <= k < |keep| ==> keep[k] < n)
    && (forall k :: 0 < k < |keep| ==> keep[k - 1] < keep[k])
  }

  /** How the row kept at position k shows on the page. */
  lemma KeptRowShown(log: seq<Row>, key: Option<int>, keep: seq<nat>, k: nat)
    requires Chained(log, key) && Rising(keep, |log|) && k < |keep|
    ensures Shown(Picked(log, keep), key, |keep| - 1 - k).Verified? <==> k == 0 || keep[k] == keep[k - 1] + 1
  {
    hide RowStatus, LinkBroken;
    var page, i := Picked(log, keep), |keep| - 1 - k;
    assert page[i] == log[keep[k]];
    if k > 0 {
      assert page[i + 1] == log[keep[k - 1]];
      LinkFitsOne(log, key, keep[k - 1], keep[k]);
    }
  }

  /** Removing rows from a chain goes unnoticed exactly when the rows left are
      neighbours: only the oldest and the newest rows can disappear silently. */
  lemma RemovalDetected(log: seq<Row>, key: Option<int>, keep: seq<nat>)
    requires Chained(log, key) && Rising(keep, |log|)
    ensures AllVerified(Picked(log, keep), key) <==> forall k :: 0 < k < |keep| ==> keep[k] == keep[k - 1] + 1
  {
    hide Shown, Chained;
    var page, n := Picked(log, keep), |keep|;
    if AllVerified(page, key) {
      forall k | 0 < k < n ensures keep[k] == keep[k - 1] + 1 {
        KeptRowShown(log, key, keep, k);
      }
    }
    if forall k :: 0 < k < n ==> keep[k] == keep[k - 1] + 1 {
      forall i | 0 <= i < n ensures Shown(page, key, i).Verified? {
        KeptRowShown(log, key, keep, n - 1 - i);
      }
    }
  }

  /** Every page of a chain is verified throughout. */
  lemma PagesVerified(log: seq<Row>, key: Option<int>, from: nat, to: nat)
    requires Chained(log, key) && from <= to <= |log|
    ensures AllVerified(Newest(log, from, to), key)
  {
    var page := Newest(log, from, to);
    forall i | 0 <= i < |page| ensures Shown(page, key, i).Verified? {
      assert RowStatus(page[i], key).Verified?;
      if i + 1 < |page| {
        assert page[i] == log[to - 1 - i] && page[i + 1] == log[to - 1 - i - 1];
      }
    }
  }

  /** A newest row that was rewritten together with a fitting digest. */
  predicate Resealed(log: seq<Row>, key: Option<int>, from: nat, i: nat, row: Row)
    requires i < |log|
  {
    && RowStatus(row, key).Verified?
    && (i > from ==> row.previous == Blank || row.previous == log[i - 1].digest)
  }

  /** Replacing one row shows up as a broken row on a page that holds it unless
      its digest was blanked (it then reads "legacy"), or it is the newest row of
      the page and came with a digest that verifies and links. */
  lemma AlterationDetected(log: seq<Row>, key: Option<int>, from: nat, to: nat, i: nat, row: Row)
    requires Chained(log, key) && from <= i < to <= |log| && row != log[i]
    ensures SomeBroken(Newest(log[i := row], from, to), key)
       <==> row.digest != Blank && !(i + 1 == to && Resealed(log, key, from, i, row))
  {
    var page, k := Newest(log[i := row], from, to), to - 1 - i;
    assert page[k] == row;
    assert forall j :: 0 <= j < |page| && j != k ==> page[j] == log[to - 1 - j];
    OthersShown(log, key, from, to, i, row);
    if i > from {
      assert page[k + 1] == log[i - 1] && RowStatus(log[i - 1], key).Verified?;
    }
    if row.digest != Blank && RowStatus(row, key).Verified? {
      if i + 1 < to {
        assert page[k - 1] == log[i + 1];
        if row.digest == log[i].digest {
          DigestDetermines(row, log[i], key);
        }
        assert Shown(page, key, k - 1).Broken?;
      }
      if !Resealed(log, key, from, i, row) {
        assert Shown(page, key, k).Broken?;
      }
    } else if row.digest != Blank {
      assert Shown(page, key, k).Broken?;
    }
  }

  /** Rows other than the replaced one and its newer neighbour look unharmed. */
  lemma OthersShown(log: seq<Row>, key: Option<int>, from: nat, to: nat, i: nat, row: Row)
    requires Chained(log, key) && from <= i < to <= |log|
    ensures var page := Newest(log[i := row], from, to);
      forall j :: 0 <= j < |page| && j != to - 1 - i && (j + 1 != to - 1 - i || row.digest == Blank) ==>
        Shown(page, key, j).Verified?
  {
    var page := Newest(log[i := row], from, to);
    forall j | 0 <= j < |page| && j != to - 1 - i && (j + 1 != to - 1 - i || row.digest == Blank)
      ensures Shown(page, key, j).Verified?
    {
      assert page[j] == log[to - 1 - j] && RowStatus(page[j], key).Verified?;
      if j + 1 < |page| && j + 1 != to - 1 - i {
        assert page[j + 1] == log[to - 2 - j];
      }
    }
  }

  // ----- Whole histories -----

  datatype Op = Record(event: Event, now: int) | Retain(retention: int, now: int) | UseKey(key: int)

  datatype History = History(log: seq<Row>, nextId: int, key: Option<int>, clock: int)

  function Next(h: History, op: Op): History {
    match op
    case Record(event, now) =>
      h.(log := h.log + [NewRow(h.log, h.nextId, event, now, h.key)], nextId := h.nextId + 1, clock := now)
    case Retain(retention, now) =>
      h.(log := if retention <= 0 then h.log else Kept(h.log, now - retention), clock := now)
    case UseKey(k) => h.(key := Some(k))
  }

  /** The clock does not go back, and the key is configured once. */
  predicate Allowed(h: History, op: Op) {
    match op
    case Record(_, now) => now >= h.clock
    case Retain(_, now) => now >= h.clock
    case UseKey(k) => h.key == None || h.key == Some(k)
  }

  ghost predicate Ok(h: History) {
    && Chained(h.log, h.key)
    && (forall i :: 0 <= i < |h.log| ==> h.log[i].id <= h.nextId && h.log[i].createdAt <= h.clock)
    && (forall i :: 0 < i < |h.log| ==> h.log[i - 1].createdAt <= h.log[i].createdAt)
  }

  /** With ordered creation times, retention removes a prefix. */
  lemma {:induction false} KeptIsSuffix(log: seq<Row>, cutoff: int) returns (from: nat)
    requires forall i :: 0 < i < |log| ==> log[i - 1].createdAt <= log[i].createdAt
    ensures from <= |log| && Kept(log, cutoff) == log[from..]
    ensures from == |log| > 0 ==> log[|log| - 1].createdAt < cutoff
    ensures from < |log| ==> log[|log| - 1].createdAt >= cutoff
  {
    if log == [] {
      from := 0;
    } else {
      var front := log[..|log| - 1];
      from := KeptIsSuffix(front, cutoff);
      if log[|log| - 1].createdAt < cutoff {
        from := |log|;
      } else {
        assert log[from..] == front[from..] + [log[|log| - 1]];
      }
    }
  }

  lemma SealedVerified(row: Row, key: Option<int>)
    ensures RowStatus(Sealed(row, key), key).Verified?
  {
    assert PayloadOf(Sealed(row, key)) == PayloadOf(row);
  }

  lemma RecordOk(h: History, op: Op)
    requires Ok(h) && op.Record? && Allowed(h, op)
    ensures Ok(Next(h, op))
  {
    hide RowStatus;
    var row := NewRow(h.log, h.nextId, op.event, op.now, h.key);
    SealedVerified(row, h.key);
    var log := h.log + [row];
    assert row == Sealed(row, h.key) && log[|h.log|] == row;
    assert forall i :: 0 <= i < |h.log| ==> log[i] == h.log[i];
  }

  lemma SuffixOk(h: History, from: nat)
    requires Ok(h) && from <= |h.log|
    ensures Ok(h.(log := h.log[from..]))
  {
    var log := h.log[from..];
    forall i | 0 < i < |log|
      ensures log[i].previous == log[i - 1].digest && log[i].id > log[i - 1].id && log[i - 1].createdAt <= log[i].createdAt
    {
      assert log[i] == h.log[from + i] && log[i - 1] == h.log[from + i - 1];
    }
  }

  lemma RetainOk(h: History, op: Op)
    requires Ok(h) && op.Retain? && Allowed(h, op)
    ensures Ok(Next(h, op))
  {
    hide RowStatus, Kept;
    if op.retention > 0 {
      var from := KeptIsSuffix(h.log, op.now - op.retention);
      SuffixOk(h, from);
    }
  }

  /** Configuring the first key keeps every row verified. */
  lemma KeyOk(h: History, op: Op)
    requires Ok(h) && op.UseKey? && Allowed(h, op)
    ensures Ok(Next(h, op))
  {
  }

  lemma NextOk(h: History, op: Op)
    requires Ok(h) && Allowed(h, op)
    ensures Ok(Next(h, op))
  {
    match op
    case Record(_, _) => RecordOk(h, op);
    case Retain(_, _) => RetainOk(h, op);
    case UseKey(_) => KeyOk(h, op);
  }

  ghost predicate IsRun(h: History, ops: seq<Op>)
    decreases |ops|
  {
    ops == [] || (Allowed(h, ops[0]) && IsRun(Next(h, ops[0]), ops[1..]))
  }

  function After(h: History, ops: seq<Op>): History
    decreases |ops|
  {
    if ops == [] then h else After(Next(h, ops[0]), ops[1..])
  }

  lemma {:induction false} RunOk(h: History, ops: seq<Op>)
    requires Ok(h) && IsRun(h, ops)
    ensures Ok(After(h, ops))
    decreases |ops|
  {
    if ops != [] {
      NextOk(h, ops[0]);
      RunOk(Next(h, ops[0]), ops[1..]);
    }
  }

  /** After any history of entries, retention runs and the first configuration
      of a key, every page shows every row as verified. */
  lemma HistoryVerified(ops: seq<Op>, clock: int, limit: int, offset: int)
    requires IsRun(History([], 0, None, clock), ops)
    ensures var h := After(History([], 0, None, clock), ops);
      AllVerified(Newest(h.log, PageStart(|h.log|, limit, offset), PageEnd(|h.log|, offset)), h.key)
  {
    RunOk(History([], 0, None, clock), ops);
    var h := After(History([], 0, None, clock), ops);
    PagesVerified(h.log, h.key, PageStart(|h.log|, limit, offset), PageEnd(|h.log|, offset));
  }

  // ----- What a log holds -----

  /** A row's own contents, the chain aside. */
  datatype Note = Note(id: int, event: Event, correlation: string, at: int)

  function NoteOf(row: Row): Note {
    Note(row.id, Event(row.action, row.details, row.ip), row.correlation, row.createdAt)
  }

  function NotesOf(log: seq<Row>): seq<Note> {
    seq(|log|, i requires 0 <= i < |log| => NoteOf(log[i]))
  }

  /** Some retention run of the history removes what was recorded at this time. */
  predicate Forgotten(ops: seq<Op>, at: int) {
    exists k :: 0 <= k < |ops| && ops[k].Retain? && ops[k].retention > 0 && at < ops[k].now - ops[k].retention
  }

  /** The events a history records and does not forget again, numbered in order. */
  function Survivors(ops: seq<Op>, lastId: int): seq<Note>
    decreases |ops|
  {
    if ops == [] then []
    else if !ops[0].Record? then Survivors(ops[1..], lastId)
    else (if Forgotten(ops[1..], ops[0].now) then [] else [Note(lastId + 1, ops[0].event, "", ops[0].now)])
         + Survivors(ops[1..], lastId + 1)
  }

  function Remembered(notes: seq<Note>, forget: int -> bool): seq<Note> {
    if notes == [] then []
    else
      var last := notes[|notes| - 1];
      Remembered(notes[..|notes| - 1], forget) + if forget(last.at) then [] else [last]
  }

  function Forgetting(ops: seq<Op>): int -> bool { at => Forgotten(ops, at) }

  lemma ForgottenSplit(ops: seq<Op>, at: int)
    requires ops != []
    ensures Forgotten(ops, at) <==>
              (ops[0].Retain? && ops[0].retention > 0 && at < ops[0].now - ops[0].retention) || Forgotten(ops[1..], at)
  {
    if k :| 0 < k < |ops| && ops[k].Retain? && ops[k].retention > 0 && at < ops[k].now - ops[k].retention {
      assert ops[1..][k - 1] == ops[k];
    }
    if k :| 0 <= k < |ops[1..]| && ops[1..][k].Retain? && ops[1..][k].retention > 0 &&
            at < ops[1..][k].now - ops[1..][k].retention {
      assert ops[k + 1] == ops[1..][k];
    }
  }

  lemma NotesSnoc(log: seq<Row>, row: Row)
    ensures NotesOf(log + [row]) == NotesOf(log) + [NoteOf(row)]
  {
  }

  lemma RememberedSnoc(notes: seq<Note>, note: Note, forget: int -> bool)
    ensures Remembered(notes + [note], forget) ==
              if forget(note.at) then Remembered(notes, forget) else Remembered(notes, forget) + [note]
  {
    assert (notes + [note])[..|notes|] == notes;
  }

  lemma KeptSnoc(log: seq<Row>, row: Row, cutoff: int)
    ensures Kept(log + [row], cutoff) == if row.createdAt < cutoff then Kept(log, cutoff) else Kept(log, cutoff) + [row]
  {
    assert (log + [row])[..|log|] == log;
  }

  /** Removing the rows before the cutoff and then what `later` removes is removing
      both at once. */
  lemma {:induction false} KeptRemembers(log: seq<Row>, cutoff: int, later: int -> bool, all: int -> bool)
    requires forall at :: all(at) <==> at < cutoff || later(at)
    ensures Remembered(NotesOf(log), all) == Remembered(NotesOf(Kept(log, cutoff)), later)
    decreases |log|
  {
    if log != [] {
      hide Kept, NotesOf, Remembered;
      var front, last := log[..|log| - 1], log[|log| - 1];
      KeptRemembers(front, cutoff, later, all);
      assert log == front + [last];
      NotesSnoc(front, last);
      RememberedSnoc(NotesOf(front), NoteOf(last), all);
      KeptSnoc(front, last, cutoff);
      NotesSnoc(Kept(front, cutoff), last);
      RememberedSnoc(NotesOf(Kept(front, cutoff)), NoteOf(last), later);
    }
  }

  lemma {:induction false} SameRemembered(notes: seq<Note>, a: int -> bool, b: int -> bool)
    requires forall at :: a(at) <==> b(at)
    ensures Remembered(notes, a) == Remembered(notes, b)
  {
    if notes != [] {
      SameRemembered(notes[..|notes| - 1], a, b);
    }
  }

  /** The first operation of a history, seen from what is there before it. */
  lemma FirstForgets(log: seq<Row>, ops: seq<Op>)
    requires ops != []
    ensures Remembered(NotesOf(log), Forgetting(ops)) ==
              if ops[0].Retain? && ops[0].retention > 0
              then Remembered(NotesOf(Kept(log, ops[0].now - ops[0].retention)), Forgetting(ops[1..]))
              else Remembered(NotesOf(log), Forgetting(ops[1..]))
  {
    hide Remembered, Kept, NotesOf, Forgotten;
    forall at ensures Forgetting(ops)(at) <==> Forgotten(ops, at) { ForgottenSplit(ops, at); }
    forall at
      ensures Forgotten(ops, at) <==>
                (ops[0].Retain? && ops[0].retention > 0 && at < ops[0].now - ops[0].retention) || Forgetting(ops[1..])(at)
    {
      ForgottenSplit(ops, at);
    }
    if ops[0].Retain? && ops[0].retention > 0 {
      KeptRemembers(log, ops[0].now - ops[0].retention, Forgetting(ops[1..]), Forgetting(ops));
    } else {
      SameRemembered(NotesOf(log), Forgetting(ops), Forgetting(ops[1..]));
    }
  }

  lemma NewNote(h: History, op: Op)
    requires op.Record?
    ensures NotesOf(Next(h, op).log) == NotesOf(h.log) + [Note(h.nextId + 1, op.event, "", op.now)]
  {
    NotesSnoc(h.log, NewRow(h.log, h.nextId, op.event, op.now, h.key));
  }

  lemma NewSurvivor(ops: seq<Op>, lastId: int)
    requires ops != [] && ops[0].Record?
    ensures var note := Note(lastId + 1, ops[0].event, "", ops[0].now);
      Survivors(ops, lastId) ==
      if Forgetting(ops[1..])(note.at) then Survivors(ops[1..], lastId + 1) else [note] + Survivors(ops[1..], lastId + 1)
  {
    hide Forgotten;
  }

  lemma RecordContents(h: History, ops: seq<Op>)
    requires ops != [] && ops[0].Record?
    ensures Remembered(NotesOf(Next(h, ops[0]).log), Forgetting(ops[1..])) + Survivors(ops[1..], h.nextId + 1) ==
            Remembered(NotesOf(h.log), Forgetting(ops[1..])) + Survivors(ops, h.nextId)
  {
    hide Forgotten, Remembered, NotesOf, Next, Forgetting, Survivors;
    NewNote(h, ops[0]);
    RememberedSnoc(NotesOf(h.log), Note(h.nextId + 1, ops[0].event, "", ops[0].now), Forgetting(ops[1..]));
    NewSurvivor(ops, h.nextId);
  }

  lemma {:induction false} ContentsAfter(h: History, ops: seq<Op>)
    ensures NotesOf(After(h, ops).log) == Remembered(NotesOf(h.log), Forgetting(ops)) + Survivors(ops, h.nextId)
    decreases |ops|
  {
    if ops == [] {
      NothingForgotten(NotesOf(h.log));
    } else {
      hide Forgotten, Kept, Remembered, NotesOf, Forgetting, NewRow;
      FirstForgets(h.log, ops);
      ContentsAfter(Next(h, ops[0]), ops[1..]);
      if ops[0].Record? {
        RecordContents(h, ops);
      }
    }
  }

  lemma {:induction false} NothingForgotten(notes: seq<Note>)
    ensures Remembered(notes, Forgetting([])) == notes
  {
    if notes != [] {
      NothingForgotten(notes[..|notes| - 1]);
      assert !Forgotten([], notes[|notes| - 1].at);
    }
  }

  /** After any history, with any clock and any keys, the log holds exactly the
      recorded events that no later retention run has removed, in order, each with
      its own action, details, address and time and numbered consecutively. */
  lemma LogContents(ops: seq<Op>, clock: int)
    ensures NotesOf(After(History([], 0, None, clock), ops).log) == Survivors(ops, 0)
  {
    hide Survivors;
    ContentsAfter(History([], 0, None, clock), ops);
  }

  /** A page skips the `offset` newest rows and holds the next ones, newest first, as
      many as the limit allows; a limit that is not positive allows them all. */
  lemma PageMeaning(log: seq<Row>, limit: int, offset: int)
    ensures var n, skip := |log|, if offset < 0 then 0 else offset;
      var page := Newest(log, PageStart(n, limit, offset), PageEnd(n, offset));
      && (skip >= n ==> page == [])
      && (skip < n ==> |page| == if limit <= 0 || limit > n - skip then n - skip else limit)
      && forall i :: 0 <= i < |page| ==> page[i] == log[n - 1 - skip - i]
  {
  }

  /** Consecutive pages neither repeat nor skip a row. */
  lemma PagesJoin(log: seq<Row>, first: int, second: int, offset: int)
    requires first > 0 && second > 0 && offset >= 0
    ensures var n := |log|;
      Newest(log, PageStart(n, first, offset), PageEnd(n, offset)) +
      Newest(log, PageStart(n, second, offset + first), PageEnd(n, offset + first)) ==
      Newest(log, PageStart(n, first + second, offset), PageEnd(n, offset))
  {
  }

  /** A row sealed with a key verifies with that key only; one sealed without a key
      verifies under any configuration. */
  lemma KeyDecides(row: Row, sealing: Option<int>, key: Option<int>)
    ensures RowStatus(Sealed(row, sealing), key) == if sealing.None? || sealing == key then Verified else Broken
  {
    assert PayloadOf(Sealed(row, sealing)) == PayloadOf(row);
  }

  /** Rows from before correlation IDs keep the payload format they were sealed with,
      and a row with one verifies in the format that holds it only. */
  lemma FormatVersions(row: Row, version: nat, key: Option<int>)
    ensures RowStatus(row.(digest := Sha(Payload(version, row.id, row.action, row.details, row.ip, row.correlation,
                                                row.createdAt, row.previous))), key) ==
      if version == (if row.correlation == "" then 1 else 2) then Verified else Broken
  {
  }
}
