/** One ingest run as a state machine: a feeder, N readers, one bounded channel and
    one writer, interleaved in any order, with files that fail to open, bodies that break
    partway, write and ledger failures, and a cancellation at any moment. */
module IngestRun {
  import opened Collections
  import opened IngestModel

  /** What a run is given. `known` is the ledger it resumes from, empty when it
      cannot resume; `content` is the file a validator describes. */
  datatype Config = Config(
    jobs: seq<FileKey>,
    workers: nat,
    batchSize: nat,
    hasLedger: bool,
    known: set<FileKey>,
    content: (FileKey, string) -> seq<Record>)

  predicate ValidConfig(cfg: Config) {
    && cfg.workers > 0 && cfg.jobs != []
    && forall i, j | 0 <= i < j < |cfg.jobs| :: cfg.jobs[i] != cfg.jobs[j]
  }

  /** A reader on a file has the chunks it will still send. On a broken body it keeps the file
      when they run out: every read fails, and the loop looks at nothing else. Those reads
      change nothing anybody else sees, so they are no steps of the run. */
  datatype Reader = Idle | Reading(job: nat, pending: seq<Chunk>) | Exited

  datatype JobStatus = Working | Sent | Lost

  datatype RunResult = Ok | RunFailed | NothingFound

  /** `files`, `status` and `consumed` record history; the rest is what is running. */
  datatype State = State(
    next: nat,
    feeding: bool,
    readers: seq<Reader>,
    channel: seq<Chunk>,
    channelOpen: bool,
    readErrs: nat,
    cancelled: bool,
    writer: WriterState,
    result: Option<RunResult>,
    files: seq<Opened>,
    status: seq<JobStatus>,
    consumed: seq<Chunk>)

  function Initial(cfg: Config, stored: set<(FileKey, Row)>, ledger: map<FileKey, Entry>): State {
    State(0, true, seq(cfg.workers, i => Idle), [], true, 0, false,
          WriterState(RunStats(0, 0, 0, 0, 0, 0, 0), false, map[], stored, ledger), None, [], [], [])
  }

  datatype Step =
    | Feed(reader: nat, file: Opened)        // an idle reader receives the next job and opens its file
    | StopFeeding                            // the feeder runs out of jobs, or sees the cancellation
    | Leave(reader: nat)                     // an idle reader finds the job channel closed
    | Send(reader: nat)                      // a reader's next chunk goes into the channel
    | Abandon(reader: nat)                   // a reader's send loses to the cancellation
    | CloseChannel                           // every reader has returned
    | Take(write: WriteOutcome, recorded: bool)  // the writer takes a chunk
    | Finish                                 // the writer sees the channel closed and empty
    | Cancel

  /** What opening a job's file, and reading it, may come to: unchanged only for a file the
      ledger knows, and a validator only for the content it describes. Whether a body breaks,
      and where, is settled here but is nobody's to see until it is read. */
  predicate Admissible(cfg: Config, job: nat, file: Opened)
    requires job < |cfg.jobs|
  {
    match file
    case Unchanged => cfg.jobs[job] in cfg.known
    case Body(records, validator) => validator != "" ==> records == cfg.content(cfg.jobs[job], validator)
    case _ => true
  }

  /** A batch that is written accounts for each of its rows. */
  predicate WriteAllowed(c: Chunk, write: WriteOutcome) {
    c.rows.Some? && write.Wrote? ==> write.matches + write.collapsed == |c.rows.value|
  }

  /** A reader that has run out of full batches on a broken body: it reads on for ever. */
  predicate Spins(s: State, r: nat) {
    r < |s.readers| && s.readers[r].Reading? && s.readers[r].pending == []
  }

  ghost predicate NoneSpins(s: State) {
    forall r: nat | r < |s.readers| :: !Spins(s, r)
  }

  /** A reader with a job handed out and a chunk of it to send. */
  predicate HasChunk(s: State, r: nat) {
    r < |s.readers| && s.readers[r].Reading? && s.readers[r].pending != []
    && s.readers[r].job < |s.status| && s.readers[r].job < |s.files|
  }

  predicate Enabled(cfg: Config, s: State, step: Step) {
    && s.result.None?
    && match step
       case Feed(r, file) =>
         r < |s.readers| && s.readers[r].Idle? && s.feeding && s.next < |cfg.jobs| && Admissible(cfg, s.next, file)
       case StopFeeding => s.feeding && (s.next >= |cfg.jobs| || s.cancelled)
       case Leave(r) => r < |s.readers| && s.readers[r].Idle? && !s.feeding
       case Send(r) => HasChunk(s, r) && |s.channel| < cfg.workers
       case Abandon(r) => HasChunk(s, r) && s.cancelled
       case CloseChannel => s.channelOpen && forall r | 0 <= r < |s.readers| :: s.readers[r].Exited?
       case Take(write, recorded) => s.channel != [] && WriteAllowed(s.channel[0], write)
       case Finish => s.channel == [] && !s.channelOpen
       case Cancel => true
  }

  function PlanFor(cfg: Config, job: nat, file: Opened): seq<Chunk>
    requires job < |cfg.jobs|
  {
    PlanOf(cfg.jobs[job], file, cfg.batchSize)
  }

  function ResultOf(s: State): RunResult {
    if s.writer.failed || s.readErrs > 0 then RunFailed
    else if s.writer.stats.filesRead == 0 && s.writer.stats.filesSkipped == 0 then NothingFound
    else Ok
  }

  function Apply(cfg: Config, s: State, step: Step): State
    requires Enabled(cfg, s, step)
  {
    match step
    case Feed(r, file) =>
      var plan := PlanFor(cfg, s.next, file);
      if file.Failed? then
        s.(next := s.next + 1, readers := s.readers[r := Exited], readErrs := s.readErrs + 1,
           files := s.files + [file], status := s.status + [Lost])
      else
        s.(next := s.next + 1, readers := s.readers[r := Reading(s.next, plan)],
           files := s.files + [file], status := s.status + [Working])
    case StopFeeding => s.(feeding := false)
    case Leave(r) => s.(readers := s.readers[r := Exited])
    case Send(r) =>
      var Reading(job, pending) := s.readers[r];
      if |pending| == 1 && !s.files[job].Broken? then
        s.(channel := s.channel + [pending[0]], readers := s.readers[r := Idle], status := s.status[job := Sent])
      else
        s.(channel := s.channel + [pending[0]], readers := s.readers[r := Reading(job, pending[1..])])
    case Abandon(r) =>
      var Reading(job, pending) := s.readers[r];
      if pending[0].skipped || pending[0].missing then
        s.(readers := s.readers[r := Idle], status := s.status[job := Lost])
      else
        s.(readers := s.readers[r := Exited], status := s.status[job := Lost], readErrs := s.readErrs + 1)
    case CloseChannel => s.(channelOpen := false)
    case Take(write, recorded) =>
      s.(channel := s.channel[1..], consumed := s.consumed + [s.channel[0]],
         writer := WriterStep(s.writer, s.channel[0], write, cfg.hasLedger, recorded))
    case Finish => s.(result := Some(ResultOf(s)))
    case Cancel => s.(cancelled := true)
  }

  /** The step is this reader's own. */
  predicate ActsOn(step: Step, r: nat) {
    match step
    case Feed(q, _) => q == r
    case Leave(q) => q == r
    case Send(q) => q == r
    case Abandon(q) => q == r
    case _ => false
  }

  /** A reader moves only by its own steps, and what a file is stays settled. */
  lemma {:induction false} OthersStand(cfg: Config, s: State, step: Step, r: nat)
    requires Enabled(cfg, s, step) && r < |s.readers|
    ensures |Apply(cfg, s, step).readers| == |s.readers| && s.files <= Apply(cfg, s, step).files
    ensures !ActsOn(step, r) ==> Apply(cfg, s, step).readers[r] == s.readers[r]
  {
  }

  // -------------------------------------------------------------- chunks by file

  function ByKey(chunks: seq<Chunk>, key: FileKey): seq<Chunk> {
    if chunks == [] then []
    else (if chunks[0].key == key then [chunks[0]] else []) + ByKey(chunks[1..], key)
  }

  lemma {:induction false} ByKeyAppend(a: seq<Chunk>, b: seq<Chunk>, key: FileKey)
    ensures ByKey(a + b, key) == ByKey(a, key) + ByKey(b, key)
  {
    if a == [] {
      assert a + b == b;
    } else {
      assert (a + b)[1..] == a[1..] + b;
      ByKeyAppend(a[1..], b, key);
    }
  }

  lemma {:induction false} ByKeyOne(c: Chunk, key: FileKey)
    ensures ByKey([c], key) == if c.key == key then [c] else []
  {
  }

  lemma {:induction false} ByKeyMembers(chunks: seq<Chunk>, key: FileKey)
    ensures forall c | c in ByKey(chunks, key) :: c in chunks && c.key == key
  {
    if chunks != [] {
      ByKeyMembers(chunks[1..], key);
    }
  }

  lemma {:induction false} TerminalsAppend(a: seq<Chunk>, b: seq<Chunk>)
    ensures Terminals(a + b) == Terminals(a) + Terminals(b)
  {
    if a == [] {
      assert a + b == b;
    } else {
      assert (a + b)[1..] == a[1..] + b;
      TerminalsAppend(a[1..], b);
    }
  }

  lemma {:induction false} NoTerminals(chunks: seq<Chunk>)
    requires forall i | 0 <= i < |chunks| :: !Terminal(chunks[i])
    ensures Terminals(chunks) == 0
  {
    if chunks != [] {
      NoTerminals(chunks[1..]);
    }
  }

  // ------------------------------------------------------------------- invariants

  ghost predicate On(s: State, r: int, job: int) {
    0 <= r < |s.readers| && s.readers[r].Reading? && s.readers[r].job == job
  }

  /** Shapes and flags. A reader leaves before the feeder stops only by failing. */
  ghost predicate Structure(cfg: Config, s: State) {
    && |s.readers| == cfg.workers && |s.channel| <= cfg.workers
    && s.next <= |cfg.jobs| && |s.files| == s.next && |s.status| == s.next
    && (forall j | 0 <= j < s.next :: Admissible(cfg, j, s.files[j]))
    && (forall r | 0 <= r < |s.readers| && s.readers[r].Reading? ::
          s.readers[r].job < s.next && (Spins(s, r) ==> s.files[s.readers[r].job].Broken?))
    && (forall j | 0 <= j < s.next && s.files[j].Failed? :: s.status[j] == Lost)
    && (forall j | 0 <= j < s.next && s.files[j].Broken? :: s.status[j] != Sent)
    && (forall r, j | On(s, r, j) :: s.status[j] == Working)
    && (forall q, r, j | On(s, q, j) && On(s, r, j) :: q == r)
    && (forall j | 0 <= j < s.next && s.status[j] == Working :: exists r :: On(s, r, j))
    && (!s.channelOpen ==> forall r | 0 <= r < |s.readers| :: s.readers[r].Exited?)
    && (!s.feeding ==> s.next == |cfg.jobs| || s.cancelled)
    && (s.feeding ==> forall r | 0 <= r < |s.readers| && s.readers[r].Exited? :: s.readErrs > 0)
    && (s.result.Some? ==> s.channel == [] && !s.channelOpen && s.result == Some(ResultOf(s)))
  }

  function Sofar(s: State, key: FileKey): seq<Chunk> {
    ByKey(s.consumed + s.channel, key)
  }

  ghost predicate Prefix(a: seq<Chunk>, b: seq<Chunk>) {
    |a| <= |b| && a == b[..|a|]
  }

  /** What has been sent of a file is a prefix of its plan; once its reader is
      through, all of it. */
  ghost predicate JobFlows(cfg: Config, s: State, j: nat)
    requires j < |cfg.jobs| && j < |s.files| && j < |s.status|
  {
    var sofar, plan := Sofar(s, cfg.jobs[j]), PlanFor(cfg, j, s.files[j]);
    Prefix(sofar, plan) && (s.status[j] == Sent ==> sofar == plan)
  }

  /** What has been sent of a file, with what its reader still holds, is its plan. */
  ghost predicate ReaderFlows(cfg: Config, s: State, r: nat)
    requires r < |s.readers| && s.readers[r].Reading?
    requires s.readers[r].job < |cfg.jobs| && s.readers[r].job < |s.files|
  {
    var Reading(j, pending) := s.readers[r];
    Sofar(s, cfg.jobs[j]) + pending == PlanFor(cfg, j, s.files[j])
  }

  ghost predicate Unsent(cfg: Config, s: State, j: nat)
    requires j < |cfg.jobs|
  {
    Sofar(s, cfg.jobs[j]) == []
  }

  ghost predicate Flow(cfg: Config, s: State)
    requires Structure(cfg, s)
  {
    && (forall j | 0 <= j < s.next :: JobFlows(cfg, s, j))
    && (forall r | 0 <= r < |s.readers| && s.readers[r].Reading? :: ReaderFlows(cfg, s, r))
    && (forall j | s.next <= j < |cfg.jobs| :: Unsent(cfg, s, j))
    && (forall c | c in s.consumed + s.channel :: c.key in cfg.jobs[..s.next])
  }

  /** The store holds every row of every file the ledger names, and the ledger's
      count of what was seen is the file's. */
  ghost predicate LedgerSound(content: (FileKey, string) -> seq<Record>,
                              stored: set<(FileKey, Row)>, ledger: map<FileKey, Entry>)
  {
    forall k | k in ledger ::
      && ledger[k].validator != ""
      && RowSet(k, ParsedRows(content(k, ledger[k].validator))) <= stored
      && ledger[k].seen == |content(k, ledger[k].validator)|
  }

  /** Until a write fails every batch taken is stored, and the counts balance. */
  ghost predicate Books(cfg: Config, s: State) {
    && LedgerSound(cfg.content, s.writer.stored, s.writer.ledger)
    && (!s.writer.failed ==>
          && (forall c | c in s.consumed && c.rows.Some? :: RowSet(c.key, c.rows.value) <= s.writer.stored)
          && s.writer.stats.rowsSeen
             == s.writer.stats.rowsWritten + s.writer.stats.rowsRejected + s.writer.stats.rowsCollapsed)
    && (forall key :: Terminals(ByKey(s.consumed, key)) == 0 ==>
          TallyOf(s.writer, key).seen == SeenOf(ByKey(s.consumed, key)))
  }

  function Busy(readers: seq<Reader>): nat {
    if readers == [] then 0 else (if readers[0].Reading? then 1 else 0) + Busy(readers[1..])
  }

  function LostJobs(status: seq<JobStatus>): nat {
    if status == [] then 0 else (if status[0] == Lost then 1 else 0) + LostJobs(status[1..])
  }

  function Settled(stats: RunStats): nat {
    stats.filesRead + stats.filesSkipped + stats.filesMissing
  }

  /** Every job handed out is settled, on its way, or lost; each read error cost a job. */
  ghost predicate Tickets(cfg: Config, s: State) {
    && Settled(s.writer.stats) + Terminals(s.channel) + Busy(s.readers) + LostJobs(s.status) == s.next
    && s.readErrs <= LostJobs(s.status)
    && (LostJobs(s.status) > s.readErrs ==> s.cancelled)
  }

  ghost predicate Inv(cfg: Config, s: State) {
    Structure(cfg, s) && Flow(cfg, s) && Books(cfg, s) && Tickets(cfg, s)
  }
}
