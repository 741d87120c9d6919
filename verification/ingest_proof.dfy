/** Every step of every interleaving keeps the run's invariant. */
module IngestProof {
  import opened IngestModel
  import opened IngestRun

  lemma {:induction false} InvInitially(cfg: Config, stored: set<(FileKey, Row)>, ledger: map<FileKey, Entry>)
    requires ValidConfig(cfg) && LedgerSound(cfg.content, stored, ledger)
    ensures Inv(cfg, Initial(cfg, stored, ledger))
  {
    NothingSent(cfg, stored, ledger);
    NothingBooked(cfg, Initial(cfg, stored, ledger));
    NothingTicketed(cfg, Initial(cfg, stored, ledger));
  }

  lemma {:induction false} NothingTicketed(cfg: Config, s: State)
    requires forall r | 0 <= r < |s.readers| :: !s.readers[r].Reading?
    requires s.channel == [] && s.status == [] && s.next == 0 && s.readErrs == 0 && Settled(s.writer.stats) == 0
    ensures Tickets(cfg, s)
  {
    IdleReaders(s.readers);
  }

  lemma {:induction false} NothingBooked(cfg: Config, s: State)
    requires s.consumed == [] && s.writer.tally == map[] && s.writer.stats == RunStats(0, 0, 0, 0, 0, 0, 0)
    requires LedgerSound(cfg.content, s.writer.stored, s.writer.ledger)
    ensures Books(cfg, s)
  {
  }

  lemma {:induction false} NothingSent(cfg: Config, stored: set<(FileKey, Row)>, ledger: map<FileKey, Entry>)
    requires ValidConfig(cfg)
    ensures Structure(cfg, Initial(cfg, stored, ledger)) && Flow(cfg, Initial(cfg, stored, ledger))
  {
    var s := Initial(cfg, stored, ledger);
    assert s.consumed + s.channel == [];
    assert forall r, j :: !On(s, r, j);
  }

  lemma {:induction false} IdleReaders(readers: seq<Reader>)
    requires forall r | 0 <= r < |readers| :: !readers[r].Reading?
    ensures Busy(readers) == 0
  {
    if readers != [] {
      IdleReaders(readers[1..]);
    }
  }

  lemma {:induction false} BusyUpdate(readers: seq<Reader>, r: nat, reader: Reader)
    requires r < |readers|
    ensures Busy(readers[r := reader]) + (if readers[r].Reading? then 1 else 0)
         == Busy(readers) + (if reader.Reading? then 1 else 0)
  {
    if r == 0 {
      assert readers[0 := reader][1..] == readers[1..];
    } else {
      assert readers[r := reader][1..] == readers[1..][r - 1 := reader];
      BusyUpdate(readers[1..], r - 1, reader);
    }
  }

  lemma {:induction false} LostUpdate(status: seq<JobStatus>, j: nat, new_: JobStatus)
    requires j < |status|
    ensures LostJobs(status[j := new_]) + (if status[j] == Lost then 1 else 0)
         == LostJobs(status) + (if new_ == Lost then 1 else 0)
  {
    if j == 0 {
      assert status[0 := new_][1..] == status[1..];
    } else {
      assert status[j := new_][1..] == status[1..][j - 1 := new_];
      LostUpdate(status[1..], j - 1, new_);
    }
  }

  lemma {:induction false} LostAppend(status: seq<JobStatus>, new_: JobStatus)
    ensures LostJobs(status + [new_]) == LostJobs(status) + (if new_ == Lost then 1 else 0)
  {
    if status == [] {
      assert [] + [new_] == [new_];
    } else {
      assert (status + [new_])[1..] == status[1..] + [new_];
      LostAppend(status[1..], new_);
    }
  }

  // ------------------------------------------------------------------- structure

  lemma {:induction false} FeedKeepsStructure(cfg: Config, s: State, r: nat, file: Opened)
    requires ValidConfig(cfg) && Structure(cfg, s) && Enabled(cfg, s, Feed(r, file))
    ensures Structure(cfg, Apply(cfg, s, Feed(r, file)))
  {
    var s' := Apply(cfg, s, Feed(r, file));
    forall j | 0 <= j < s'.next && s'.status[j] == Working
      ensures exists q :: On(s', q, j)
    {
      if j < s.next {
        var q :| On(s, q, j);
        assert On(s', q, j);
      } else {
        assert On(s', r, j);
      }
    }
    forall q, j | On(s', q, j)
      ensures s'.status[j] == Working
    {
      assert q != r ==> On(s, q, j);
    }
    forall p, q, j | On(s', p, j) && On(s', q, j)
      ensures p == q
    {
      assert p != r ==> On(s, p, j);
      assert q != r ==> On(s, q, j);
    }
  }

  /** A reader's own step leaves who is on what as it was, but for that reader. */
  lemma {:induction false} ReaderKeepsPlaces(cfg: Config, s: State, step: Step, q: nat, j: int)
    requires Structure(cfg, s) && Enabled(cfg, s, step) && (step.Send? || step.Abandon? || step.Leave?)
    requires On(Apply(cfg, s, step), q, j)
    ensures On(s, q, j) && 0 <= j < s.next && Apply(cfg, s, step).status[j] == Working
  {
    var r := step.reader;
    assert s.readers[r].Reading? ==> On(s, r, s.readers[r].job);
    assert On(s, q, j);
    if s.readers[r].Reading? && j == s.readers[r].job {
      assert q == r;
    }
  }

  lemma {:induction false} ReaderKeepsWorking(cfg: Config, s: State, step: Step, j: int)
    requires Structure(cfg, s) && Enabled(cfg, s, step) && (step.Send? || step.Abandon? || step.Leave?)
    requires 0 <= j < s.next && Apply(cfg, s, step).status[j] == Working
    ensures exists q :: On(Apply(cfg, s, step), q, j)
  {
    var q :| On(s, q, j);
    assert On(Apply(cfg, s, step), q, j);
  }

  lemma {:induction false} ReaderKeepsStructure(cfg: Config, s: State, step: Step)
    requires ValidConfig(cfg) && Structure(cfg, s) && Enabled(cfg, s, step) && (step.Send? || step.Abandon? || step.Leave?)
    ensures Structure(cfg, Apply(cfg, s, step))
  {
    var r, s' := step.reader, Apply(cfg, s, step);
    assert s.readers[r].Reading? ==> On(s, r, s.readers[r].job);
    forall q, j | On(s', q, j)
      ensures On(s, q, j) && s'.status[j] == Working
    {
      ReaderKeepsPlaces(cfg, s, step, q, j);
    }
    forall j | 0 <= j < s'.next && s'.status[j] == Working
      ensures exists q :: On(s', q, j)
    {
      ReaderKeepsWorking(cfg, s, step, j);
    }
  }

  lemma {:induction false} SameReadersStructure(cfg: Config, s: State, step: Step)
    requires ValidConfig(cfg) && Structure(cfg, s) && Enabled(cfg, s, step)
    requires step.StopFeeding? || step.CloseChannel? || step.Take? || step.Finish? || step.Cancel?
    ensures Structure(cfg, Apply(cfg, s, step))
  {
    var s' := Apply(cfg, s, step);
    assert forall r, j :: On(s', r, j) <==> On(s, r, j);
  }

  lemma {:induction false} StructureKept(cfg: Config, s: State, step: Step)
    requires ValidConfig(cfg) && Structure(cfg, s) && Enabled(cfg, s, step)
    ensures Structure(cfg, Apply(cfg, s, step))
  {
    match step
    case Feed(r, file) => FeedKeepsStructure(cfg, s, r, file);
    case Leave(r) => ReaderKeepsStructure(cfg, s, step);
    case Send(r) => ReaderKeepsStructure(cfg, s, step);
    case Abandon(r) => ReaderKeepsStructure(cfg, s, step);
    case _ => SameReadersStructure(cfg, s, step);
  }

  // ------------------------------------------------------------------------ flow

  /** Flow depends on what was sent, not on which side of the channel it is. */
  lemma {:induction false} FlowDepends(cfg: Config, s: State, s': State)
    requires Structure(cfg, s) && Flow(cfg, s) && Structure(cfg, s')
    requires s'.next == s.next && s'.files == s.files && s'.status == s.status
    requires s'.consumed + s'.channel == s.consumed + s.channel
    requires forall r | 0 <= r < |s'.readers| && s'.readers[r].Reading? :: s'.readers[r] == s.readers[r]
    ensures Flow(cfg, s')
  {
    forall j | 0 <= j < s'.next
      ensures JobFlows(cfg, s', j)
    {
      assert JobFlows(cfg, s, j);
    }
    forall r | 0 <= r < |s'.readers| && s'.readers[r].Reading?
      ensures ReaderFlows(cfg, s', r)
    {
      assert ReaderFlows(cfg, s, r);
    }
    forall j | s'.next <= j < |cfg.jobs|
      ensures Unsent(cfg, s', j)
    {
      assert Unsent(cfg, s, j);
    }
  }

  lemma {:induction false} FeedKeepsFlow(cfg: Config, s: State, r: nat, file: Opened)
    requires ValidConfig(cfg) && Structure(cfg, s) && Flow(cfg, s) && Enabled(cfg, s, Feed(r, file))
    requires Structure(cfg, Apply(cfg, s, Feed(r, file)))
    ensures Flow(cfg, Apply(cfg, s, Feed(r, file)))
  {
    var s' := Apply(cfg, s, Feed(r, file));
    var plan := PlanFor(cfg, s.next, file);
    assert Unsent(cfg, s, s.next);
    assert [] + plan == plan;
    forall j | 0 <= j < s'.next
      ensures JobFlows(cfg, s', j)
    {
      assert j < s.next ==> JobFlows(cfg, s, j);
    }
    forall q | 0 <= q < |s'.readers| && s'.readers[q].Reading?
      ensures ReaderFlows(cfg, s', q)
    {
      assert q != r ==> ReaderFlows(cfg, s, q);
    }
    forall j | s'.next <= j < |cfg.jobs|
      ensures Unsent(cfg, s', j)
    {
      assert Unsent(cfg, s, j);
    }
    assert cfg.jobs[..s'.next] == cfg.jobs[..s.next] + [cfg.jobs[s.next]];
  }

  /** The chunk a reader sends next is of its own file. */
  lemma {:induction false} SendsOwnFile(cfg: Config, s: State, r: nat)
    requires ValidConfig(cfg) && Structure(cfg, s) && Flow(cfg, s) && r < |s.readers| && s.readers[r].Reading?
    requires s.readers[r].pending != []
    ensures s.readers[r].pending[0].key == cfg.jobs[s.readers[r].job]
  {
    var Reading(job, pending) := s.readers[r];
    assert ReaderFlows(cfg, s, r);
    PlanWellFormed(cfg.jobs[job], s.files[job], cfg.batchSize);
    assert pending[0] == PlanFor(cfg, job, s.files[job])[|Sofar(s, cfg.jobs[job])|];
  }

  lemma {:induction false} SofarAfterSend(s: State, s': State, c: Chunk, key: FileKey)
    requires s'.consumed == s.consumed && s'.channel == s.channel + [c]
    ensures Sofar(s', key) == if c.key == key then Sofar(s, key) + [c] else Sofar(s, key)
  {
    assert s.consumed + (s.channel + [c]) == (s.consumed + s.channel) + [c];
    ByKeyAppend(s.consumed + s.channel, [c], key);
    ByKeyOne(c, key);
  }

  lemma {:induction false} SendKeepsJobFlow(cfg: Config, s: State, r: nat, j: nat)
    requires ValidConfig(cfg) && Structure(cfg, s) && Flow(cfg, s) && Enabled(cfg, s, Send(r)) && j < s.next
    ensures JobFlows(cfg, Apply(cfg, s, Send(r)), j)
  {
    var s' := Apply(cfg, s, Send(r));
    var Reading(job, pending) := s.readers[r];
    var c := pending[0];
    SendsOwnFile(cfg, s, r);
    SofarAfterSend(s, s', c, cfg.jobs[j]);
    assert JobFlows(cfg, s, j) && ReaderFlows(cfg, s, r);
    if j == job {
      PrefixGrows(Sofar(s, cfg.jobs[job]), pending, PlanFor(cfg, job, s.files[job]));
    }
  }

  lemma {:induction false} PrefixGrows(before: seq<Chunk>, pending: seq<Chunk>, plan: seq<Chunk>)
    requires before + pending == plan && pending != []
    ensures Prefix(before + [pending[0]], plan)
    ensures |pending| == 1 ==> before + [pending[0]] == plan
  {
  }

  lemma {:induction false} SendKeepsReaderFlow(cfg: Config, s: State, r: nat, q: nat)
    requires ValidConfig(cfg) && Structure(cfg, s) && Flow(cfg, s) && Enabled(cfg, s, Send(r))
    requires var s' := Apply(cfg, s, Send(r)); q < |s'.readers| && s'.readers[q].Reading?
    ensures ReaderFlows(cfg, Apply(cfg, s, Send(r)), q)
  {
    var s' := Apply(cfg, s, Send(r));
    var Reading(job, pending) := s.readers[r];
    SendsOwnFile(cfg, s, r);
    assert On(s, r, job) && On(s, q, s.readers[q].job);
    assert ReaderFlows(cfg, s, q);
    SofarAfterSend(s, s', pending[0], cfg.jobs[s.readers[q].job]);
    if q == r {
      PendingMoves(Sofar(s, cfg.jobs[job]), pending);
      assert s'.readers[q].pending == pending[1..];
    } else {
      assert s.readers[q].job != job && s'.readers[q] == s.readers[q];
      assert cfg.jobs[s.readers[q].job] != cfg.jobs[job];
    }
  }

  lemma {:induction false} PendingMoves(before: seq<Chunk>, pending: seq<Chunk>)
    requires pending != []
    ensures (before + [pending[0]]) + pending[1..] == before + pending
  {
  }

  lemma {:induction false} SendKeepsFlow(cfg: Config, s: State, r: nat)
    requires ValidConfig(cfg) && Structure(cfg, s) && Flow(cfg, s) && Enabled(cfg, s, Send(r))
    requires Structure(cfg, Apply(cfg, s, Send(r)))
    ensures Flow(cfg, Apply(cfg, s, Send(r)))
  {
    var s' := Apply(cfg, s, Send(r));
    var c := s.readers[r].pending[0];
    SendsOwnFile(cfg, s, r);
    forall j | 0 <= j < s'.next
      ensures JobFlows(cfg, s', j)
    {
      SendKeepsJobFlow(cfg, s, r, j);
    }
    forall q | 0 <= q < |s'.readers| && s'.readers[q].Reading?
      ensures ReaderFlows(cfg, s', q)
    {
      SendKeepsReaderFlow(cfg, s, r, q);
    }
    forall j | s'.next <= j < |cfg.jobs|
      ensures Unsent(cfg, s', j)
    {
      assert Unsent(cfg, s, j);
      SofarAfterSend(s, s', c, cfg.jobs[j]);
    }
    assert s'.consumed + s'.channel == (s.consumed + s.channel) + [c];
  }

  lemma {:induction false} AbandonKeepsFlow(cfg: Config, s: State, r: nat)
    requires ValidConfig(cfg) && Structure(cfg, s) && Flow(cfg, s) && Enabled(cfg, s, Abandon(r))
    requires Structure(cfg, Apply(cfg, s, Abandon(r)))
    ensures Flow(cfg, Apply(cfg, s, Abandon(r)))
  {
    var s' := Apply(cfg, s, Abandon(r));
    forall j | 0 <= j < s'.next
      ensures JobFlows(cfg, s', j)
    {
      assert JobFlows(cfg, s, j);
    }
    forall q | 0 <= q < |s'.readers| && s'.readers[q].Reading?
      ensures ReaderFlows(cfg, s', q)
    {
      assert ReaderFlows(cfg, s, q);
    }
    forall j | s'.next <= j < |cfg.jobs|
      ensures Unsent(cfg, s', j)
    {
      assert Unsent(cfg, s, j);
    }
  }

  lemma {:induction false} FlowKept(cfg: Config, s: State, step: Step)
    requires ValidConfig(cfg) && Structure(cfg, s) && Flow(cfg, s) && Enabled(cfg, s, step)
    requires Structure(cfg, Apply(cfg, s, step))
    ensures Flow(cfg, Apply(cfg, s, step))
  {
    match step
    case Feed(r, file) => FeedKeepsFlow(cfg, s, r, file);
    case Send(r) => SendKeepsFlow(cfg, s, r);
    case Abandon(r) => AbandonKeepsFlow(cfg, s, r);
    case _ => FlowDepends(cfg, s, Apply(cfg, s, step));
  }

  // ----------------------------------------------------------------------- books

  /** The chunk at the head of the channel continues its file's plan exactly where
      the writer left it. */
  lemma {:induction false} TakenContinues(cfg: Config, s: State) returns (j: nat, n: nat)
    requires ValidConfig(cfg) && Structure(cfg, s) && Flow(cfg, s) && s.channel != []
    ensures j < s.next && s.channel[0].key == cfg.jobs[j] && WellFormedPlan(cfg.jobs[j], PlanFor(cfg, j, s.files[j]))
    ensures n < |PlanFor(cfg, j, s.files[j])| && PlanFor(cfg, j, s.files[j])[n] == s.channel[0]
    ensures ByKey(s.consumed, cfg.jobs[j]) == PlanFor(cfg, j, s.files[j])[..n]
  {
    var c := s.channel[0];
    assert c in s.consumed + s.channel;
    j :| 0 <= j < s.next && cfg.jobs[j] == c.key;
    assert JobFlows(cfg, s, j);
    PlanWellFormed(cfg.jobs[j], s.files[j], cfg.batchSize);
    ByKeyAppend(s.consumed, s.channel, c.key);
    assert ByKey(s.channel, c.key)[0] == c;
    n := |ByKey(s.consumed, c.key)|;
    var plan := PlanFor(cfg, j, s.files[j]);
    assert Sofar(s, c.key)[n] == c && Sofar(s, c.key)[..n] == ByKey(s.consumed, c.key);
  }

  lemma {:induction false} RowsStored(key: FileKey, chunks: seq<Chunk>, stored: set<(FileKey, Row)>)
    requires forall c | c in chunks && c.rows.Some? :: RowSet(key, c.rows.value) <= stored
    ensures RowSet(key, RowsOf(chunks)) <= stored
  {
    if chunks != [] {
      assert chunks[0] in chunks;
      RowsStored(key, chunks[1..], stored);
      assert RowsOf(chunks) == (if chunks[0].rows.Some? then chunks[0].rows.value else []) + RowsOf(chunks[1..]);
    }
  }

  /** When the writer takes a file's closing chunk with nothing failed, the store
      holds the whole file and the tally counts the whole file. */
  lemma {:induction false} ClosedFileIsStored(cfg: Config, s: State)
    requires ValidConfig(cfg) && Structure(cfg, s) && Flow(cfg, s) && Books(cfg, s) && s.channel != []
    requires !s.writer.failed && Terminal(s.channel[0]) && !s.channel[0].skipped && !s.channel[0].missing
    requires s.channel[0].validator != ""
    ensures var c := s.channel[0];
            && RowSet(c.key, ParsedRows(cfg.content(c.key, c.validator))) <= s.writer.stored
            && TallyOf(s.writer, c.key).seen == |cfg.content(c.key, c.validator)|
  {
    var c := s.channel[0];
    var j, n := TakenContinues(cfg, s);
    var file, plan := s.files[j], PlanFor(cfg, j, s.files[j]);
    PlanWellFormed(cfg.jobs[j], file, cfg.batchSize);
    assert Admissible(cfg, j, file);
    assert file.Body? && n == |plan| - 1;
    var taken := ByKey(s.consumed, c.key);
    assert plan == taken + [c];
    RowsAppend(taken, [c]);
    SeenAppend(taken, [c]);
    assert RowsOf(plan) == RowsOf(taken) + [] == RowsOf(taken);
    ByKeyMembers(s.consumed, c.key);
    RowsStored(c.key, taken, s.writer.stored);
    NoTerminals(taken);
  }

  /** A chunk moves its own file's tally only, and by what it saw. */
  lemma {:induction false} TallyStep(w: WriterState, c: Chunk, write: WriteOutcome, hasLedger: bool, recorded: bool, key: FileKey)
    requires Counted(c)
    ensures var w' := WriterStep(w, c, write, hasLedger, recorded);
            && (key != c.key ==> TallyOf(w', key) == TallyOf(w, key))
            && (key == c.key && !Terminal(c) ==> TallyOf(w', key).seen == TallyOf(w, key).seen + c.seen)
  {
  }

  lemma {:induction false} TallyKept(cfg: Config, s: State, step: Step, key: FileKey)
    requires ValidConfig(cfg) && Structure(cfg, s) && Flow(cfg, s) && Books(cfg, s) && Enabled(cfg, s, step) && step.Take?
    requires Counted(s.channel[0])
    ensures var s' := Apply(cfg, s, step);
            Terminals(ByKey(s'.consumed, key)) == 0 ==> TallyOf(s'.writer, key).seen == SeenOf(ByKey(s'.consumed, key))
  {
    var c := s.channel[0];
    var before := ByKey(s.consumed, key);
    ByKeyAppend(s.consumed, [c], key);
    ByKeyOne(c, key);
    TallyStep(s.writer, c, step.write, cfg.hasLedger, step.recorded, key);
    TallyCounts(s.writer, Apply(cfg, s, step).writer, c, before, key);
  }

  lemma {:induction false} TallyCounts(w: WriterState, w': WriterState, c: Chunk, before: seq<Chunk>, key: FileKey)
    requires Counted(c) && (Terminals(before) == 0 ==> TallyOf(w, key).seen == SeenOf(before))
    requires key != c.key ==> TallyOf(w', key) == TallyOf(w, key)
    requires key == c.key && !Terminal(c) ==> TallyOf(w', key).seen == TallyOf(w, key).seen + c.seen
    ensures var after := before + if key == c.key then [c] else [];
            Terminals(after) == 0 ==> TallyOf(w', key).seen == SeenOf(after)
  {
    if key == c.key {
      TerminalsAppend(before, [c]);
      SeenAppend(before, [c]);
    } else {
      assert before + [] == before;
    }
  }

  lemma {:induction false} TakeKeepsBooks(cfg: Config, s: State, step: Step)
    requires ValidConfig(cfg) && Structure(cfg, s) && Flow(cfg, s) && Books(cfg, s) && Enabled(cfg, s, step) && step.Take?
    ensures Books(cfg, Apply(cfg, s, step))
  {
    var s' := Apply(cfg, s, step);
    var c := s.channel[0];
    var j, n := TakenContinues(cfg, s);
    if !s.writer.failed && Terminal(c) && !c.skipped && !c.missing && c.validator != "" {
      ClosedFileIsStored(cfg, s);
    }
    forall key | Terminals(ByKey(s'.consumed, key)) == 0
      ensures TallyOf(s'.writer, key).seen == SeenOf(ByKey(s'.consumed, key))
    {
      TallyKept(cfg, s, step, key);
    }
  }

  lemma {:induction false} BooksKept(cfg: Config, s: State, step: Step)
    requires ValidConfig(cfg) && Structure(cfg, s) && Flow(cfg, s) && Books(cfg, s) && Enabled(cfg, s, step)
    ensures Books(cfg, Apply(cfg, s, step))
  {
    if step.Take? {
      TakeKeepsBooks(cfg, s, step);
    } else {
      var s' := Apply(cfg, s, step);
      assert s'.consumed == s.consumed && s'.writer == s.writer;
    }
  }

  // --------------------------------------------------------------------- tickets

  lemma {:induction false} TicketsKept(cfg: Config, s: State, step: Step)
    requires ValidConfig(cfg) && Inv(cfg, s) && Enabled(cfg, s, step)
    ensures Tickets(cfg, Apply(cfg, s, step))
  {
    match step
    case Feed(r, file) => FeedKeepsTickets(cfg, s, r, file);
    case Leave(r) => BusyUpdate(s.readers, r, Exited);
    case Send(r) => SendKeepsTickets(cfg, s, r);
    case Abandon(r) => AbandonKeepsTickets(cfg, s, r);
    case Take(write, recorded) =>
      var j, n := TakenContinues(cfg, s);
      SettledStep(s.writer, s.channel[0], write, cfg.hasLedger, recorded);
    case _ =>
  }

  lemma {:induction false} SettledStep(w: WriterState, c: Chunk, write: WriteOutcome, hasLedger: bool, recorded: bool)
    requires Counted(c)
    ensures Settled(WriterStep(w, c, write, hasLedger, recorded).stats)
         == Settled(w.stats) + if Terminal(c) then 1 else 0
  {
  }

  lemma {:induction false} FeedKeepsTickets(cfg: Config, s: State, r: nat, file: Opened)
    requires ValidConfig(cfg) && Inv(cfg, s) && Enabled(cfg, s, Feed(r, file))
    ensures Tickets(cfg, Apply(cfg, s, Feed(r, file)))
  {
    BusyUpdate(s.readers, r, if file.Failed? then Exited else Reading(s.next, PlanFor(cfg, s.next, file)));
    LostAppend(s.status, if file.Failed? then Lost else Working);
  }

  lemma {:induction false} AbandonKeepsTickets(cfg: Config, s: State, r: nat)
    requires ValidConfig(cfg) && Inv(cfg, s) && Enabled(cfg, s, Abandon(r))
    ensures Tickets(cfg, Apply(cfg, s, Abandon(r)))
  {
    var Reading(job, pending) := s.readers[r];
    assert On(s, r, job);
    BusyUpdate(s.readers, r, if pending[0].skipped || pending[0].missing then Idle else Exited);
    LostUpdate(s.status, job, Lost);
  }

  /** A chunk leaves its reader free exactly when it is terminal. */
  lemma {:induction false} SendKeepsTickets(cfg: Config, s: State, r: nat)
    requires ValidConfig(cfg) && Inv(cfg, s) && Enabled(cfg, s, Send(r))
    ensures Tickets(cfg, Apply(cfg, s, Send(r)))
  {
    var Reading(job, pending) := s.readers[r];
    var c := pending[0];
    assert On(s, r, job) && ReaderFlows(cfg, s, r);
    PlanWellFormed(cfg.jobs[job], s.files[job], cfg.batchSize);
    var plan, n := PlanFor(cfg, job, s.files[job]), |Sofar(s, cfg.jobs[job])|;
    assert c == plan[n] && |plan| == n + |pending|;
    TerminalsAppend(s.channel, [c]);
    BusyUpdate(s.readers, r, if |pending| == 1 && !s.files[job].Broken? then Idle else Reading(job, pending[1..]));
    LostUpdate(s.status, job, Sent);
  }

  /** The invariant holds in every state any interleaving can reach. */
  lemma {:induction false} InvKept(cfg: Config, s: State, step: Step)
    requires ValidConfig(cfg) && Inv(cfg, s) && Enabled(cfg, s, step)
    ensures Inv(cfg, Apply(cfg, s, step))
  {
    StructureKept(cfg, s, step);
    FlowKept(cfg, s, step);
    BooksKept(cfg, s, step);
    TicketsKept(cfg, s, step);
  }
}
