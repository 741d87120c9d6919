/** The ingest pipeline's data: source files, the chunks a reader makes of one, and
    what the single writer does with a chunk. */
module IngestModel {
  import opened Collections

  datatype FileKey = FileKey(source: string, unit: string)

  /** A parsed row. Only which row it is matters here. */
  type Row = int

  /** What the reader makes of one record of a file. */
  datatype Record = Parsed(row: Row) | Unreadable

  /** What opening a source file, and reading it, can come to. A broken body gives some
      records and then fails every read, short of the end: a download that is cut off or
      times out, or that the cancellation of the run interrupts. */
  datatype Opened =
    | Unchanged
    | NotFound
    | Failed
    | Body(records: seq<Record>, validator: string)
    | Broken(records: seq<Record>)

  datatype Chunk = Chunk(
    key: FileKey,
    rows: Option<seq<Row>>,
    seen: nat,
    rejected: nat,
    missing: bool,
    skipped: bool,
    validator: string)

  function SkippedChunk(key: FileKey): Chunk {
    Chunk(key, None, 0, 0, false, true, "")
  }

  function MissingChunk(key: FileKey): Chunk {
    Chunk(key, None, 0, 0, true, false, "")
  }

  function BatchChunk(key: FileKey, rows: seq<Row>, seen: nat, rejected: nat): Chunk {
    Chunk(key, Some(rows), seen, rejected, false, false, "")
  }

  function ClosingChunk(key: FileKey, validator: string): Chunk {
    Chunk(key, None, 0, 0, false, false, validator)
  }

  /** A chunk after which its file has no more: closed, skipped or missing. */
  predicate Terminal(c: Chunk) {
    c.rows.None?
  }

  // ------------------------------------------------------------------ one reader

  function ParsedRows(records: seq<Record>): seq<Row> {
    if records == [] then []
    else if records[0].Parsed? then [records[0].row] + ParsedRows(records[1..])
    else ParsedRows(records[1..])
  }

  /** Where the reading loop stands: the batches sent, and what is batched and counted since. */
  datatype Scan = Scan(sent: seq<Chunk>, batch: seq<Row>, seen: nat, rejected: nat)

  function ScanNext(key: FileKey, s: Scan, record: Record, batchSize: nat): Scan {
    if record.Unreadable? then s.(seen := s.seen + 1, rejected := s.rejected + 1)
    else
      var filled := s.batch + [record.row];
      if |filled| >= batchSize then Scan(s.sent + [BatchChunk(key, filled, s.seen + 1, s.rejected)], [], 0, 0)
      else s.(batch := filled, seen := s.seen + 1)
  }

  /** The reading loop after these records. */
  function Scanned(key: FileKey, records: seq<Record>, batchSize: nat): Scan {
    if records == [] then Scan([], [], 0, 0)
    else
      var n := |records| - 1;
      ScanNext(key, Scanned(key, records[..n], batchSize), records[n], batchSize)
  }

  /** What is sent at the end of a file: the last batch, if there is one, and the close. */
  function LastChunks(key: FileKey, s: Scan, validator: string): seq<Chunk> {
    (if |s.batch| > 0 || s.seen > 0 then [BatchChunk(key, s.batch, s.seen, s.rejected)] else [])
    + [ClosingChunk(key, validator)]
  }

  /** Everything a reader would ever send for a file opened this way, if never cancelled.
      Of a broken body that is its full batches: the end is never reached. */
  function PlanOf(key: FileKey, file: Opened, batchSize: nat): seq<Chunk> {
    match file
    case Unchanged => [SkippedChunk(key)]
    case NotFound => [MissingChunk(key)]
    case Failed => []
    case Body(records, validator) =>
      var s := Scanned(key, records, batchSize);
      s.sent + LastChunks(key, s, validator)
    case Broken(records) => Scanned(key, records, batchSize).sent
  }

  function Unreadables(n: nat): (r: seq<Record>)
    ensures |r| == n && forall i | 0 <= i < n :: r[i] == Unreadable
  {
    if n == 0 then [] else Unreadables(n - 1) + [Unreadable]
  }

  /** What the first `turns` reads of a body give. A failed read counts as an unreadable record. */
  function Came(file: Opened, turns: nat): seq<Record>
    requires file.Body? || file.Broken?
  {
    if turns <= |file.records| then file.records[..turns]
    else if file.Body? then file.records
    else file.records + Unreadables(turns - |file.records|)
  }

  /** Whether `turns` reads bring the reader to the end of its file. */
  predicate AtEnd(file: Opened, turns: nat) {
    match file
    case Body(records, _) => turns > |records|
    case Broken(_) => false
    case _ => true
  }

  /** What a reader has sent after `turns` reads, if never cancelled. */
  function SentBy(key: FileKey, file: Opened, batchSize: nat, turns: nat): seq<Chunk> {
    if AtEnd(file, turns) then PlanOf(key, file, batchSize)
    else Scanned(key, Came(file, turns), batchSize).sent
  }

  datatype ReadResult = ReadOk | ReadFailed | ReadCancelled | StillReading

  ghost function Shorter(room: nat, plan: seq<Chunk>): seq<Chunk> {
    if room < |plan| then plan[..room] else plan
  }

  lemma {:induction false} ScanGrows(key: FileKey, records: seq<Record>, batchSize: nat, i: nat)
    requires i <= |records|
    ensures Scanned(key, records[..i], batchSize).sent <= Scanned(key, records, batchSize).sent
    decreases |records|
  {
    if i == |records| {
      assert records[..i] == records;
    } else {
      var init := records[..|records| - 1];
      assert init[..i] == records[..i];
      ScanGrows(key, init, batchSize, i);
    }
  }

  lemma {:induction false} ScanOneMore(key: FileKey, records: seq<Record>, batchSize: nat, i: nat)
    requires i < |records|
    ensures Scanned(key, records[..i + 1], batchSize)
         == ScanNext(key, Scanned(key, records[..i], batchSize), records[i], batchSize)
  {
    assert records[..i + 1][..i] == records[..i];
  }

  /** A send that is lost cuts what is sent short. */
  lemma {:induction false} CutOff(key: FileKey, file: Opened, batchSize: nat, turns: nat, i: nat, sent: seq<Chunk>, c: Chunk)
    requires file.Body? || file.Broken?
    requires i <= |Came(file, turns)| && Scanned(key, Came(file, turns)[..i], batchSize).sent == sent + [c]
    ensures var all := SentBy(key, file, batchSize, turns); |all| > |sent| && all[..|sent|] == sent
  {
    ScanGrows(key, Came(file, turns), batchSize, i);
    assert sent + [c] <= SentBy(key, file, batchSize, turns);
  }

  /** `readFile`, watched for `turns` reads of the body. The writer takes the first `room`
      sends; the next one loses to the cancelled context. A skipped or missing file lost
      that way is no error. */
  method ReadFile(key: FileKey, file: Opened, batchSize: nat, room: nat, turns: nat)
    returns (sent: seq<Chunk>, result: ReadResult)
    ensures var all := SentBy(key, file, batchSize, turns);
            && sent == Shorter(room, all)
            && result == (if file.Failed? then ReadFailed
                          else if |all| > room && !file.Unchanged? && !file.NotFound? then ReadCancelled
                          else if AtEnd(file, turns) then ReadOk
                          else StillReading)
  {
    match file
    case Unchanged =>
      sent, result := if room > 0 then [SkippedChunk(key)] else [], ReadOk;
    case NotFound =>
      sent, result := if room > 0 then [MissingChunk(key)] else [], ReadOk;
    case Failed =>
      sent, result := [], ReadFailed;
    case _ =>
      sent, result := ReadBody(key, file, batchSize, room, turns);
  }

  /** The loop leaves by the end of the file, or by a send that is lost; a read that fails
      is counted and the loop goes on. */
  method ReadBody(key: FileKey, file: Opened, batchSize: nat, room: nat, turns: nat)
    returns (sent: seq<Chunk>, result: ReadResult)
    requires file.Body? || file.Broken?
    ensures var all := SentBy(key, file, batchSize, turns);
            sent == Shorter(room, all)
            && result == if |all| > room then ReadCancelled else if AtEnd(file, turns) then ReadOk else StillReading
  {
    sent := [];
    var batch, seen, rejected := [], 0, 0;
    ghost var came := Came(file, turns);
    var i := 0;
    while i < turns && (file.Broken? || i < |file.records|)
      invariant i <= |came| && |sent| <= room
      invariant Scan(sent, batch, seen, rejected) == Scanned(key, came[..i], batchSize)
      decreases turns - i
    {
      var record := if i < |file.records| then file.records[i] else Unreadable;
      ScanOneMore(key, came, batchSize, i);
      i := i + 1;
      seen := seen + 1;
      if record.Unreadable? {
        rejected := rejected + 1;
        continue;
      }
      batch := batch + [record.row];
      if |batch| >= batchSize {
        if |sent| == room {
          CutOff(key, file, batchSize, turns, i, sent, BatchChunk(key, batch, seen, rejected));
          return sent, ReadCancelled;
        }
        sent := sent + [BatchChunk(key, batch, seen, rejected)];
        batch, seen, rejected := [], 0, 0;
      }
    }
    assert came[..i] == came;
    if i >= turns {
      return sent, StillReading;
    }
    assert SentBy(key, file, batchSize, turns) == sent + LastChunks(key, Scan(sent, batch, seen, rejected), file.validator);
    if |batch| > 0 || seen > 0 {
      if |sent| == room {
        return sent, ReadCancelled;
      }
      sent := sent + [BatchChunk(key, batch, seen, rejected)];
    }
    if |sent| == room {
      return sent, ReadCancelled;
    }
    sent := sent + [ClosingChunk(key, file.validator)];
    result := ReadOk;
  }

  lemma {:induction false} UnreadablesSendNothing(key: FileKey, records: seq<Record>, batchSize: nat, n: nat)
    ensures Scanned(key, records + Unreadables(n), batchSize).sent == Scanned(key, records, batchSize).sent
  {
    if n == 0 {
      assert records + [] == records;
    } else {
      var before := records + Unreadables(n - 1);
      assert records + Unreadables(n) == before + [Unreadable];
      UnreadablesSendNothing(key, records, batchSize, n - 1);
      assert (before + [Unreadable])[..|before|] == before;
    }
  }

  /** However long a reader of a broken body is watched, it has sent no more than the full
      batches of what came before the break, and it has neither ended nor failed. */
  lemma {:induction false} BrokenIsNeverRead(key: FileKey, file: Opened, batchSize: nat, turns: nat)
    requires file.Broken?
    ensures !AtEnd(file, turns) && SentBy(key, file, batchSize, turns) <= PlanOf(key, file, batchSize)
    ensures turns >= |file.records| ==> SentBy(key, file, batchSize, turns) == PlanOf(key, file, batchSize)
  {
    if turns < |file.records| {
      ScanGrows(key, file.records, batchSize, turns);
    } else {
      UnreadablesSendNothing(key, file.records, batchSize, turns - |file.records|);
      assert file.records[..|file.records|] == file.records;
      assert file.records + [] == file.records;
    }
  }

  // ---------------------------------------------------------- what a plan promises

  function RowsOf(chunks: seq<Chunk>): seq<Row> {
    if chunks == [] then []
    else (if chunks[0].rows.Some? then chunks[0].rows.value else []) + RowsOf(chunks[1..])
  }

  function SeenOf(chunks: seq<Chunk>): nat {
    if chunks == [] then 0 else chunks[0].seen + SeenOf(chunks[1..])
  }

  function Terminals(chunks: seq<Chunk>): nat {
    if chunks == [] then 0 else (if Terminal(chunks[0]) then 1 else 0) + Terminals(chunks[1..])
  }

  /** Every record a chunk counts was either batched in it or rejected. */
  predicate Counted(c: Chunk) {
    && !(c.missing && c.skipped)
    && (Terminal(c) ==> c.seen == 0 && c.rejected == 0)
    && (!Terminal(c) ==> !c.missing && !c.skipped && c.seen == |c.rows.value| + c.rejected)
  }

  /** A file's chunks: its own key, honest counts, and none after a terminal one. */
  predicate WellFormedPlan(key: FileKey, plan: seq<Chunk>) {
    && (forall i | 0 <= i < |plan| :: plan[i].key == key && Counted(plan[i]))
    && (forall i | 0 <= i < |plan| :: Terminal(plan[i]) ==> i == |plan| - 1)
  }

  /** The plan of a file that ends: terminal at the end. */
  predicate Ends(plan: seq<Chunk>) {
    plan != [] && Terminal(plan[|plan| - 1])
  }

  predicate NoneTerminal(plan: seq<Chunk>) {
    forall i | 0 <= i < |plan| :: !Terminal(plan[i])
  }

  lemma {:induction false} RowsAppend(a: seq<Chunk>, b: seq<Chunk>)
    ensures RowsOf(a + b) == RowsOf(a) + RowsOf(b)
  {
    if a == [] {
      assert a + b == b;
    } else {
      assert (a + b)[1..] == a[1..] + b;
      RowsAppend(a[1..], b);
    }
  }

  lemma {:induction false} SeenAppend(a: seq<Chunk>, b: seq<Chunk>)
    ensures SeenOf(a + b) == SeenOf(a) + SeenOf(b)
  {
    if a == [] {
      assert a + b == b;
    } else {
      assert (a + b)[1..] == a[1..] + b;
      SeenAppend(a[1..], b);
    }
  }

  lemma {:induction false} ParsedAppend(a: seq<Record>, b: seq<Record>)
    ensures ParsedRows(a + b) == ParsedRows(a) + ParsedRows(b)
  {
    if a == [] {
      assert a + b == b;
    } else {
      assert (a + b)[1..] == a[1..] + b;
      ParsedAppend(a[1..], b);
    }
  }

  /** The batches of a scan are full, and the one still open is not. */
  ghost predicate Batched(s: Scan, batchSize: nat) {
    var full := if batchSize == 0 then 1 else batchSize;
    |s.batch| < full && forall i | 0 <= i < |s.sent| :: s.sent[i].rows.Some? && |s.sent[i].rows.value| == full
  }

  /** The batches of a scan hold what was read: its parsed rows in order and every record
      counted, all in full batches but the one still open. */
  ghost predicate Keeps(key: FileKey, s: Scan, rows: seq<Row>, seen: nat, batchSize: nat) {
    && WellFormedPlan(key, s.sent) && NoneTerminal(s.sent)
    && Batched(s, batchSize)
    && s.seen == |s.batch| + s.rejected
    && RowsOf(s.sent) + s.batch == rows && SeenOf(s.sent) + s.seen == seen
  }

  lemma {:induction false} NextKeeps(key: FileKey, s: Scan, record: Record, rows: seq<Row>, seen: nat, batchSize: nat)
    requires Keeps(key, s, rows, seen, batchSize)
    ensures Keeps(key, ScanNext(key, s, record, batchSize),
                  rows + if record.Parsed? then [record.row] else [], seen + 1, batchSize)
  {
    if record.Unreadable? {
      assert rows + [] == rows;
    } else {
      var filled := s.batch + [record.row];
      assert RowsOf(s.sent) + filled == rows + [record.row];
      var c := BatchChunk(key, filled, s.seen + 1, s.rejected);
      RowsAppend(s.sent, [c]);
      SeenAppend(s.sent, [c]);
      assert RowsOf([c]) == filled + [] == filled;
    }
  }

  lemma {:induction false} ScanKeepsRecords(key: FileKey, records: seq<Record>, batchSize: nat)
    ensures Keeps(key, Scanned(key, records, batchSize), ParsedRows(records), |records|, batchSize)
  {
    if records != [] {
      var init, last := records[..|records| - 1], records[|records| - 1];
      ScanKeepsRecords(key, init, batchSize);
      NextKeeps(key, Scanned(key, init, batchSize), last, ParsedRows(init), |init|, batchSize);
      ParsedAppend(init, [last]);
      assert records == init + [last];
    }
  }

  /** The chunks of a file that ends carry its parsed rows in order, count every record, and
      end in the one chunk that closes it with the validator of what was read. */
  ghost predicate Faithful(key: FileKey, plan: seq<Chunk>, validator: string, rows: seq<Row>, seen: nat) {
    && WellFormedPlan(key, plan)
    && |plan| > 0 && plan[|plan| - 1] == ClosingChunk(key, validator)
    && RowsOf(plan) == rows && SeenOf(plan) == seen
  }

  lemma {:induction false} LastIsFaithful(key: FileKey, s: Scan, validator: string, rows: seq<Row>, seen: nat, batchSize: nat)
    requires Keeps(key, s, rows, seen, batchSize)
    ensures Faithful(key, s.sent + LastChunks(key, s, validator), validator, rows, seen)
  {
    var last := LastChunks(key, s, validator);
    var plan := s.sent + last;
    RowsAppend(s.sent, last);
    SeenAppend(s.sent, last);
    forall i | 0 <= i < |plan|
      ensures plan[i].key == key && Counted(plan[i]) && (Terminal(plan[i]) ==> i == |plan| - 1)
    {
      assert i >= |s.sent| ==> plan[i] == last[i - |s.sent|];
    }
    LastHolds(key, s, validator);
  }

  lemma {:induction false} LastHolds(key: FileKey, s: Scan, validator: string)
    requires s.seen == |s.batch| + s.rejected
    ensures RowsOf(LastChunks(key, s, validator)) == s.batch && SeenOf(LastChunks(key, s, validator)) == s.seen
  {
    var close := ClosingChunk(key, validator);
    assert RowsOf([close]) == [] && SeenOf([close]) == 0;
    if |s.batch| > 0 || s.seen > 0 {
      assert LastChunks(key, s, validator)[1..] == [close];
    } else {
      assert LastChunks(key, s, validator) == [close];
    }
  }

  /** The plan of any file: a file that ends is sent whole and closed; one that is broken is
      never closed, and what is sent of it is a beginning of what was read. */
  lemma {:induction false} PlanWellFormed(key: FileKey, file: Opened, batchSize: nat)
    ensures WellFormedPlan(key, PlanOf(key, file, batchSize))
    ensures !file.Failed? && !file.Broken? ==> Ends(PlanOf(key, file, batchSize))
    ensures file.Body? ==> Faithful(key, PlanOf(key, file, batchSize), file.validator,
                                    ParsedRows(file.records), |file.records|)
    ensures file.Broken? ==> NoneTerminal(PlanOf(key, file, batchSize))
                             && RowsOf(PlanOf(key, file, batchSize)) <= ParsedRows(file.records)
  {
    if file.Body? || file.Broken? {
      ScanKeepsRecords(key, file.records, batchSize);
    }
    if file.Body? {
      LastIsFaithful(key, Scanned(key, file.records, batchSize), file.validator,
                     ParsedRows(file.records), |file.records|, batchSize);
    }
  }

  // -------------------------------------------------------------------- the writer

  datatype RunStats = RunStats(
    filesRead: nat,
    filesMissing: nat,
    filesSkipped: nat,
    rowsSeen: nat,
    rowsWritten: nat,
    rowsRejected: nat,
    rowsCollapsed: nat)

  datatype FileTally = FileTally(seen: nat, written: nat)

  /** One row of the ledger: what was read, how much of it, and how much was written. */
  datatype Entry = Entry(validator: string, seen: nat, written: nat)

  /** What `WriteBatch` answers; a failed batch writes nothing. */
  datatype WriteOutcome = WriteFailed | Wrote(matches: nat, collapsed: nat)

  /** The writer's locals, with the two tables it writes to. */
  datatype WriterState = WriterState(
    stats: RunStats,
    failed: bool,
    tally: map<FileKey, FileTally>,
    stored: set<(FileKey, Row)>,
    ledger: map<FileKey, Entry>)

  function TallyOf(w: WriterState, key: FileKey): FileTally {
    if key in w.tally then w.tally[key] else FileTally(0, 0)
  }

  function RowSet(key: FileKey, rows: seq<Row>): set<(FileKey, Row)> {
    set row | row in rows :: (key, row)
  }

  lemma {:induction false} ForgetsKey<K, V>(m: map<K, V>, key: K, v: V)
    ensures m[key := v] - {key} == m - {key}
  {
  }

  /** One turn of the writer's loop. `recorded` says the ledger took the entry. */
  function WriterStep(w: WriterState, c: Chunk, write: WriteOutcome, hasLedger: bool, recorded: bool): WriterState {
    var stats := w.stats.(rowsSeen := w.stats.rowsSeen + c.seen, rowsRejected := w.stats.rowsRejected + c.rejected);
    if c.skipped then
      w.(stats := stats.(filesSkipped := stats.filesSkipped + 1))
    else if c.missing then
      w.(stats := stats.(filesMissing := stats.filesMissing + 1))
    else
      var t := TallyOf(w, c.key).(seen := TallyOf(w, c.key).seen + c.seen);
      if c.rows.None? then
        w.(stats := stats.(filesRead := stats.filesRead + 1),
           tally := w.tally - {c.key},
           ledger := if !w.failed && hasLedger && c.validator != "" && recorded
                     then w.ledger[c.key := Entry(c.validator, t.seen, t.written)] else w.ledger)
      else if w.failed then
        w.(stats := stats, tally := w.tally[c.key := t])
      else if write.WriteFailed? then
        w.(stats := stats, tally := w.tally[c.key := t], failed := true)
      else
        w.(stats := stats.(rowsWritten := stats.rowsWritten + write.matches,
                           rowsCollapsed := stats.rowsCollapsed + write.collapsed),
           tally := w.tally[c.key := t.(written := t.written + write.matches)],
           stored := w.stored + RowSet(c.key, c.rows.value))
  }

  /** The writer as the run keeps it: locals updated in place, chunk by chunk. */
  class Writer {
    var stats: RunStats
    var failed: bool
    var tally: map<FileKey, FileTally>
    var stored: set<(FileKey, Row)>
    var ledger: map<FileKey, Entry>
    const hasLedger: bool

    function State(): WriterState
      reads this
    {
      WriterState(stats, failed, tally, stored, ledger)
    }

    constructor (stored: set<(FileKey, Row)>, ledger: map<FileKey, Entry>, hasLedger: bool)
      ensures State() == WriterState(RunStats(0, 0, 0, 0, 0, 0, 0), false, map[], stored, ledger)
      ensures this.hasLedger == hasLedger
    {
      this.stats := RunStats(0, 0, 0, 0, 0, 0, 0);
      this.failed := false;
      this.tally := map[];
      this.stored := stored;
      this.ledger := ledger;
      this.hasLedger := hasLedger;
    }

    method Consume(c: Chunk, write: WriteOutcome, recorded: bool)
      modifies this
      ensures State() == WriterStep(old(State()), c, write, hasLedger, recorded)
    {
      stats := stats.(rowsSeen := stats.rowsSeen + c.seen, rowsRejected := stats.rowsRejected + c.rejected);
      if c.skipped {
        stats := stats.(filesSkipped := stats.filesSkipped + 1);
        return;
      }
      if c.missing {
        stats := stats.(filesMissing := stats.filesMissing + 1);
        return;
      }
      var t := FileTally(0, 0);
      if c.key in tally {
        t := tally[c.key];
      }
      t := t.(seen := t.seen + c.seen);
      tally := tally[c.key := t];
      if c.rows.None? {
        stats := stats.(filesRead := stats.filesRead + 1);
        if !failed {
          Record(c.key, c.validator, t, recorded);
        }
        tally := tally - {c.key};
        ForgetsKey(old(tally), c.key, t);
        return;
      }
      if failed {
        return;
      }
      if write.WriteFailed? {
        failed := true;
        return;
      }
      t := t.(written := t.written + write.matches);
      tally := tally[c.key := t];
      stats := stats.(rowsWritten := stats.rowsWritten + write.matches,
                      rowsCollapsed := stats.rowsCollapsed + write.collapsed);
      stored := stored + RowSet(c.key, c.rows.value);
    }

    method Record(key: FileKey, validator: string, t: FileTally, recorded: bool)
      modifies this`ledger
      ensures ledger == if hasLedger && validator != "" && recorded
                        then old(ledger)[key := Entry(validator, t.seen, t.written)] else old(ledger)
    {
      if !hasLedger || validator == "" {
        return;
      }
      if recorded {
        ledger := ledger[key := Entry(validator, t.seen, t.written)];
      }
    }
  }
}
