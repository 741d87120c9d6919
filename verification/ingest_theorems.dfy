/** What an ingest run guarantees over every interleaving, and over any sequence of
    runs, each of which may be killed at any moment. */
module IngestTheorems {
  import opened Collections
  import opened IngestModel
  import opened IngestProof
  import opened IngestRun

  /** The state after a sequence of steps, each enabled when it is taken. */
  ghost predicate Reaches(cfg: Config, s: State, steps: seq<Step>, s': State)
    decreases |steps|
  {
    if steps == [] then s' == s
    else Enabled(cfg, s, steps[0]) && Reaches(cfg, Apply(cfg, s, steps[0]), steps[1..], s')
  }

  lemma {:induction false} ReachesInv(cfg: Config, s: State, steps: seq<Step>, s': State)
    requires ValidConfig(cfg) && Inv(cfg, s) && Reaches(cfg, s, steps, s')
    ensures Inv(cfg, s') && s.writer.stored <= s'.writer.stored
    decreases |steps|
  {
    if steps != [] {
      InvKept(cfg, s, steps[0]);
      StoredGrows(cfg, s, steps[0]);
      ReachesInv(cfg, Apply(cfg, s, steps[0]), steps[1..], s');
    }
  }

  lemma {:induction false} StoredGrows(cfg: Config, s: State, step: Step)
    requires ValidConfig(cfg) && Inv(cfg, s) && Enabled(cfg, s, step)
    ensures s.writer.stored <= Apply(cfg, s, step).writer.stored
  {
    if step.Take? {
      WriterKeepsRows(s.writer, s.channel[0], step.write, cfg.hasLedger, step.recorded);
    }
  }

  lemma {:induction false} WriterKeepsRows(w: WriterState, c: Chunk, write: WriteOutcome, hasLedger: bool, recorded: bool)
    ensures w.stored <= WriterStep(w, c, write, hasLedger, recorded).stored
  {
  }

  // ---------------------------------------------------------------- the ledger

  /** A run over a store and a ledger: what it was given and how far it got. */
  datatype Run = Run(cfg: Config, steps: seq<Step>, end: State)

  ghost predicate RunsFrom(stored: set<(FileKey, Row)>, ledger: map<FileKey, Entry>, run: Run) {
    && ValidConfig(run.cfg) && run.cfg.known <= ledger.Keys
    && Reaches(run.cfg, Initial(run.cfg, stored, ledger), run.steps, run.end)
  }

  /** Run after run over the same store, each stopping wherever it stops. */
  ghost predicate History(content: (FileKey, string) -> seq<Record>, stored: set<(FileKey, Row)>,
                          ledger: map<FileKey, Entry>, runs: seq<Run>)
    decreases |runs|
  {
    runs != [] ==>
      && runs[0].cfg.content == content && RunsFrom(stored, ledger, runs[0])
      && History(content, runs[0].end.writer.stored, runs[0].end.writer.ledger, runs[1..])
  }

  /** A file the ledger names is one the store holds in full, after any number of
      runs, whatever failed, was cancelled or was killed in them. */
  lemma {:induction false} LedgerNeverLies(content: (FileKey, string) -> seq<Record>, stored: set<(FileKey, Row)>,
                                           ledger: map<FileKey, Entry>, runs: seq<Run>)
    requires LedgerSound(content, stored, ledger) && History(content, stored, ledger, runs) && runs != []
    ensures var end := runs[|runs| - 1].end;
            LedgerSound(content, end.writer.stored, end.writer.ledger) && stored <= end.writer.stored
    decreases |runs|
  {
    var run := runs[0];
    InvInitially(run.cfg, stored, ledger);
    ReachesInv(run.cfg, Initial(run.cfg, stored, ledger), run.steps, run.end);
    if |runs| > 1 {
      LedgerNeverLies(content, run.end.writer.stored, run.end.writer.ledger, runs[1..]);
    }
  }

  /** Only an unchanged file has a skipped chunk. */
  lemma {:induction false} SkippedIsUnchanged(cfg: Config, s: State, c: Chunk) returns (j: nat)
    requires ValidConfig(cfg) && Inv(cfg, s) && c in s.consumed + s.channel && c.skipped
    ensures j < s.next && cfg.jobs[j] == c.key && s.files[j].Unchanged?
  {
    j :| 0 <= j < s.next && cfg.jobs[j] == c.key;
    assert JobFlows(cfg, s, j);
    var plan := PlanFor(cfg, j, s.files[j]);
    PlanWellFormed(cfg.jobs[j], s.files[j], cfg.batchSize);
    InByKey(s.consumed + s.channel, c);
    var n :| 0 <= n < |Sofar(s, c.key)| && Sofar(s, c.key)[n] == c;
    assert plan[n] == c;
    if s.files[j].Body? {
      assert false;
    }
  }

  lemma {:induction false} InByKey(chunks: seq<Chunk>, c: Chunk)
    requires c in chunks
    ensures c in ByKey(chunks, c.key)
  {
    if chunks[0] != c {
      InByKey(chunks[1..], c);
    }
  }

  /** A file a run skips as unchanged is one the store already holds in full. */
  lemma {:induction false} SkippedFilesAreStored(stored: set<(FileKey, Row)>, ledger: map<FileKey, Entry>, run: Run, c: Chunk)
    requires LedgerSound(run.cfg.content, stored, ledger) && RunsFrom(stored, ledger, run)
    requires c in run.end.consumed && c.skipped
    ensures c.key in ledger
    ensures RowSet(c.key, ParsedRows(run.cfg.content(c.key, ledger[c.key].validator))) <= stored
    ensures stored <= run.end.writer.stored
  {
    InvInitially(run.cfg, stored, ledger);
    ReachesInv(run.cfg, Initial(run.cfg, stored, ledger), run.steps, run.end);
    var j := SkippedIsUnchanged(run.cfg, run.end, c);
    assert Admissible(run.cfg, j, run.end.files[j]);
  }

  // ------------------------------------------------------------- a finished run

  lemma {:induction false} NoneLost(status: seq<JobStatus>, j: nat)
    requires j < |status| && LostJobs(status) == 0
    ensures status[j] != Lost
    decreases |status|
  {
    if j > 0 {
      NoneLost(status[1..], j - 1);
    }
  }

  /** A run that returns nil has settled every job it did not lose or leave unread,
      so it has settled them all exactly when it read on to the end and lost none;
      and it did, unless it was cancelled. */
  lemma {:induction false} NilRunSettles(cfg: Config, s: State)
    requires ValidConfig(cfg) && Inv(cfg, s) && s.result == Some(Ok)
    ensures Settled(s.writer.stats) == |cfg.jobs| <==> s.next == |cfg.jobs| && LostJobs(s.status) == 0
    ensures !s.cancelled ==> Settled(s.writer.stats) == |cfg.jobs|
  {
    IdleReaders(s.readers);
    assert s.readers[0].Exited?;
  }

  /** An uncancelled run that returns nil has every row of every file it read in the
      store, and its summary balances. */
  lemma {:induction false} NilRunStoresEverything(cfg: Config, s: State, j: nat)
    requires ValidConfig(cfg) && Inv(cfg, s) && s.result == Some(Ok) && !s.cancelled && j < |cfg.jobs|
    ensures j < |s.files| && !s.files[j].Failed? && !s.files[j].Broken?
    ensures s.files[j].Body? ==> RowSet(cfg.jobs[j], ParsedRows(s.files[j].records)) <= s.writer.stored
    ensures s.writer.stats.rowsSeen
         == s.writer.stats.rowsWritten + s.writer.stats.rowsRejected + s.writer.stats.rowsCollapsed
  {
    NilRunSettles(cfg, s);
    NoneLost(s.status, j);
    assert s.status[j] == Working ==> exists r :: On(s, r, j);
    assert JobFlows(cfg, s, j) && s.status[j] == Sent;
    assert s.consumed + [] == s.consumed;
    var plan := PlanFor(cfg, j, s.files[j]);
    assert plan == ByKey(s.consumed, cfg.jobs[j]);
    PlanWellFormed(cfg.jobs[j], s.files[j], cfg.batchSize);
    ByKeyMembers(s.consumed, cfg.jobs[j]);
    RowsStored(cfg.jobs[j], plan, s.writer.stored);
  }

  // ---------------------------------------------------------- steps and returns

  /** Each read error cost its own job, so the error buffer, one slot a job, always
      has room for the next. */
  lemma {:induction false} ErrorBufferNeverFills(cfg: Config, s: State, step: Step)
    requires ValidConfig(cfg) && Inv(cfg, s) && Enabled(cfg, s, step)
    ensures Apply(cfg, s, step).readErrs <= |cfg.jobs|
  {
    InvKept(cfg, s, step);
  }

  ghost predicate CanMove(cfg: Config, s: State, step: Step) {
    !step.Cancel? && Enabled(cfg, s, step)
  }

  /** No reachable state is stuck unless a reader spins: until the run returns some step other
      than a cancellation is enabled, whatever has failed. */
  lemma {:induction false} NeverStuck(cfg: Config, s: State) returns (step: Step)
    requires ValidConfig(cfg) && Inv(cfg, s) && s.result.None? && NoneSpins(s)
    ensures CanMove(cfg, s, step) && (step.Feed? ==> !step.file.Broken?)
  {
    if s.channel != [] {
      step := Take(WriteFailed, false);
    } else if exists r :: 0 <= r < |s.readers| && s.readers[r].Reading? {
      var r: nat :| r < |s.readers| && s.readers[r].Reading?;
      assert !Spins(s, r);
      step := Send(r);
    } else if exists r :: 0 <= r < |s.readers| && s.readers[r].Idle? {
      var r :| 0 <= r < |s.readers| && s.readers[r].Idle?;
      if !s.feeding {
        step := Leave(r);
      } else if s.next < |cfg.jobs| {
        step := Feed(r, NotFound);
      } else {
        step := StopFeeding;
      }
    } else if s.channelOpen {
      step := CloseChannel;
    } else {
      step := Finish;
    }
  }

  function Unsettled(readers: seq<Reader>): nat {
    if readers == [] then 0
    else (if readers[0].Reading? then 2 * |readers[0].pending| else 0) + Unsettled(readers[1..])
  }

  function Present(readers: seq<Reader>): nat {
    if readers == [] then 0 else (if readers[0].Exited? then 0 else 1) + Present(readers[1..])
  }

  lemma {:induction false} UnsettledUpdate(readers: seq<Reader>, r: nat, reader: Reader)
    requires r < |readers|
    ensures Unsettled(readers[r := reader]) + (if readers[r].Reading? then 2 * |readers[r].pending| else 0)
         == Unsettled(readers) + (if reader.Reading? then 2 * |reader.pending| else 0)
    ensures Present(readers[r := reader]) + (if readers[r].Exited? then 0 else 1)
         == Present(readers) + (if reader.Exited? then 0 else 1)
  {
    if r == 0 {
      assert readers[0 := reader][1..] == readers[1..];
    } else {
      assert readers[r := reader][1..] == readers[1..][r - 1 := reader];
      UnsettledUpdate(readers[1..], r - 1, reader);
    }
  }

  ghost function JobsLeft(cfg: Config, s: State): int {
    |cfg.jobs| - s.next
  }

  /** Chunks still to be sent count twice, chunks to be taken once. */
  ghost function ChunksLeft(s: State): nat {
    Unsettled(s.readers) + |s.channel|
  }

  ghost function DoorsOpen(s: State): nat {
    Present(s.readers) + (if s.feeding then 1 else 0) + (if s.channelOpen then 1 else 0) + (if s.result.None? then 1 else 0)
  }

  /** Every step but a cancellation uses up jobs, then chunks, then goroutines. */
  lemma {:induction false} StepsRunDown(cfg: Config, s: State, step: Step)
    requires ValidConfig(cfg) && Inv(cfg, s) && CanMove(cfg, s, step)
    ensures var s' := Apply(cfg, s, step);
            && 0 <= JobsLeft(cfg, s') <= JobsLeft(cfg, s)
            && (JobsLeft(cfg, s') == JobsLeft(cfg, s) ==>
                  ChunksLeft(s') < ChunksLeft(s) || (ChunksLeft(s') == ChunksLeft(s) && DoorsOpen(s') < DoorsOpen(s)))
  {
    match step
    case Feed(r, file) =>
    case Leave(r) => UnsettledUpdate(s.readers, r, Exited);
    case Send(r) =>
      var Reading(job, pending) := s.readers[r];
      UnsettledUpdate(s.readers, r, if |pending| == 1 && !s.files[job].Broken? then Idle else Reading(job, pending[1..]));
    case Abandon(r) =>
      var Reading(job, pending) := s.readers[r];
      UnsettledUpdate(s.readers, r, if pending[0].skipped || pending[0].missing then Idle else Exited);
    case _ =>
  }

  // ------------------------------------------------------------ when a run returns

  /** A reader on a broken body, its full batches sent or not. */
  predicate OnBroken(s: State, r: nat) {
    r < |s.readers| && s.readers[r].Reading? && s.readers[r].job < |s.files| && s.files[s.readers[r].job].Broken?
  }

  ghost predicate NoneBroken(s: State) {
    forall r: nat | r < |s.readers| :: !OnBroken(s, r)
  }

  lemma {:induction false} SpinsOnBroken(cfg: Config, s: State, r: nat)
    requires Structure(cfg, s) && Spins(s, r)
    ensures OnBroken(s, r) && s.channelOpen && s.result.None?
  {
  }

  /** Nothing anybody does, a cancellation included, moves a reader that spins. */
  lemma {:induction false} SpinnerStays(cfg: Config, s: State, step: Step, r: nat)
    requires Enabled(cfg, s, step) && Spins(s, r)
    ensures Spins(Apply(cfg, s, step), r)
  {
    assert !ActsOn(step, r);
    OthersStand(cfg, s, step, r);
  }

  /** Once a reader spins no schedule returns. */
  lemma {:induction false} SpinningNeverReturns(cfg: Config, s: State, steps: seq<Step>, s': State, r: nat)
    requires ValidConfig(cfg) && Inv(cfg, s) && Spins(s, r) && Reaches(cfg, s, steps, s')
    ensures Spins(s', r) && s'.result.None?
    decreases |steps|
  {
    if steps == [] {
      SpinsOnBroken(cfg, s, r);
    } else {
      SpinnerStays(cfg, s, steps[0], r);
      InvKept(cfg, s, steps[0]);
      SpinningNeverReturns(cfg, Apply(cfg, s, steps[0]), steps[1..], s', r);
    }
  }

  /** What a reader's own step makes of it: it stays on its file, unless it is done with it,
      or with reading. */
  lemma {:induction false} OwnStep(cfg: Config, s: State, step: Step, r: nat)
    requires Enabled(cfg, s, step) && r < |s.readers| && ActsOn(step, r)
    ensures var after := Apply(cfg, s, step).readers[r];
            match step
            case Feed(_, file) => after == if file.Failed? then Exited else Reading(s.next, PlanFor(cfg, s.next, file))
            case Send(_) => after.Idle? || (after.Reading? && after.job == s.readers[r].job)
            case _ => !after.Reading?
    ensures step.Send? && OnBroken(s, r) ==> Apply(cfg, s, step).readers[r].Reading?
  {
  }

  /** A reader on a broken body stays on it until the run is cancelled. */
  lemma {:induction false} BrokenHolds(cfg: Config, s: State, step: Step, r: nat)
    requires CanMove(cfg, s, step) && OnBroken(s, r) && !s.cancelled
    ensures OnBroken(Apply(cfg, s, step), r) && !Apply(cfg, s, step).cancelled
  {
    OthersStand(cfg, s, step, r);
    if ActsOn(step, r) {
      assert step.Send?;
      OwnStep(cfg, s, step, r);
    }
  }

  lemma {:induction false} BrokenIsUnreturned(cfg: Config, s: State, r: nat)
    requires Structure(cfg, s) && OnBroken(s, r)
    ensures s.result.None?
  {
  }

  lemma {:induction false} BrokenNeverReturns(cfg: Config, s: State, steps: seq<Step>, s': State, r: nat)
    requires ValidConfig(cfg) && Inv(cfg, s) && OnBroken(s, r) && !s.cancelled && Reaches(cfg, s, steps, s')
    requires Uncancelled(steps)
    ensures s'.result.None?
    decreases |steps|
  {
    if steps == [] {
      BrokenIsUnreturned(cfg, s, r);
    } else {
      assert steps[0] in steps;
      BrokenHolds(cfg, s, steps[0], r);
      InvKept(cfg, s, steps[0]);
      BrokenNeverReturns(cfg, Apply(cfg, s, steps[0]), steps[1..], s', r);
    }
  }

  lemma {:induction false} KeepsUnbroken(cfg: Config, s: State, step: Step)
    requires Structure(cfg, s) && CanMove(cfg, s, step) && NoneBroken(s)
    requires step.Feed? ==> !step.file.Broken?
    ensures NoneBroken(Apply(cfg, s, step))
  {
    var s' := Apply(cfg, s, step);
    forall r: nat | r < |s'.readers|
      ensures !OnBroken(s', r)
    {
      ReaderKeepsUnbroken(cfg, s, step, r);
    }
  }

  lemma {:induction false} ReaderKeepsUnbroken(cfg: Config, s: State, step: Step, r: nat)
    requires Structure(cfg, s) && CanMove(cfg, s, step) && NoneBroken(s)
    requires step.Feed? ==> !step.file.Broken?
    ensures !OnBroken(Apply(cfg, s, step), r)
  {
    if r < |s.readers| {
      OthersStand(cfg, s, step, r);
      assert !OnBroken(s, r);
      if ActsOn(step, r) {
        OwnStep(cfg, s, step, r);
      }
    }
  }

  lemma {:induction false} UnbrokenIsUnspun(cfg: Config, s: State)
    requires Structure(cfg, s) && NoneBroken(s)
    ensures NoneSpins(s)
  {
    forall r: nat | r < |s.readers|
      ensures !Spins(s, r)
    {
      assert !OnBroken(s, r);
    }
  }

  lemma {:induction false} AbandonKeepsUnspun(cfg: Config, s: State, step: Step)
    requires Enabled(cfg, s, step) && NoneSpins(s) && (step.Abandon? || step.Cancel?)
    ensures NoneSpins(Apply(cfg, s, step))
  {
    var s' := Apply(cfg, s, step);
    forall r: nat | r < |s'.readers|
      ensures !Spins(s', r)
    {
      assert !Spins(s, r);
    }
  }

  /** The way back while none spins: readers on broken bodies are cancelled and abandon their
      next batch; the rest reads on. */
  lemma {:induction false} WayOut(cfg: Config, s: State) returns (step: Step)
    requires ValidConfig(cfg) && Inv(cfg, s) && s.result.None? && NoneSpins(s)
    ensures Enabled(cfg, s, step) && NoneSpins(Apply(cfg, s, step))
    ensures step.Cancel? ==> !s.cancelled && !NoneBroken(s)
    ensures NoneBroken(s) ==> NoneBroken(Apply(cfg, s, step))
  {
    if r: nat :| r < |s.readers| && OnBroken(s, r) {
      assert !Spins(s, r);
      step := if s.cancelled then Abandon(r) else Cancel;
      AbandonKeepsUnspun(cfg, s, step);
    } else {
      step := NeverStuck(cfg, s);
      InvKept(cfg, s, step);
      KeepsUnbroken(cfg, s, step);
      UnbrokenIsUnspun(cfg, Apply(cfg, s, step));
    }
  }

  ghost predicate Uncancelled(steps: seq<Step>) {
    forall step | step in steps :: !step.Cancel?
  }

  /** While none spins the run can go on to return, and with no cancellation unless a body
      that broke is still being read. */
  lemma {:induction false} RunReturns(cfg: Config, s: State) returns (steps: seq<Step>, s': State)
    requires ValidConfig(cfg) && Inv(cfg, s) && NoneSpins(s)
    ensures Reaches(cfg, s, steps, s') && s'.result.Some?
    ensures s.cancelled || NoneBroken(s) ==> Uncancelled(steps)
    decreases JobsLeft(cfg, s), ChunksLeft(s), DoorsOpen(s), if s.cancelled then 0 else 1
  {
    if s.result.Some? {
      return [], s;
    }
    var step := WayOut(cfg, s);
    var next := Apply(cfg, s, step);
    WayOutRunsDown(cfg, s, step);
    var rest;
    rest, s' := RunReturns(cfg, next);
    steps := [step] + rest;
    ReachesBy(cfg, s, step, next, rest, s');
  }

  lemma {:induction false} WayOutRunsDown(cfg: Config, s: State, step: Step)
    requires ValidConfig(cfg) && Inv(cfg, s) && Enabled(cfg, s, step) && (step.Cancel? ==> !s.cancelled)
    ensures var next := Apply(cfg, s, step);
            && Inv(cfg, next) && 0 <= JobsLeft(cfg, next)
            && (s.cancelled ==> next.cancelled)
            && (JobsLeft(cfg, next) < JobsLeft(cfg, s)
                || (JobsLeft(cfg, next) == JobsLeft(cfg, s)
                    && (ChunksLeft(next) < ChunksLeft(s)
                        || (ChunksLeft(next) == ChunksLeft(s)
                            && (DoorsOpen(next) < DoorsOpen(s)
                                || (DoorsOpen(next) == DoorsOpen(s) && !s.cancelled && next.cancelled))))))
  {
    InvKept(cfg, s, step);
    if !step.Cancel? {
      StepsRunDown(cfg, s, step);
    }
  }

  ghost predicate CanReturn(cfg: Config, s: State) {
    exists steps, s' :: Reaches(cfg, s, steps, s') && s'.result.Some?
  }

  ghost predicate CanReturnUncancelled(cfg: Config, s: State) {
    exists steps, s' :: Reaches(cfg, s, steps, s') && s'.result.Some? && Uncancelled(steps)
  }

  /** From a reachable state some schedule returns exactly when no reader spins. */
  lemma {:induction false} ReturnsIffNoneSpins(cfg: Config, s: State)
    requires ValidConfig(cfg) && Inv(cfg, s)
    ensures CanReturn(cfg, s) <==> NoneSpins(s)
  {
    if NoneSpins(s) {
      var steps, s' := RunReturns(cfg, s);
    } else {
      var r: nat :| r < |s.readers| && Spins(s, r);
      forall steps, s' | Reaches(cfg, s, steps, s')
        ensures s'.result.None?
      {
        SpinningNeverReturns(cfg, s, steps, s', r);
      }
    }
  }

  /** With no cancellation from here on, some schedule returns exactly when no reader spins and,
      short of an earlier cancellation, none is on a broken body at all. */
  lemma {:induction false} ReturnsUncancelledIff(cfg: Config, s: State)
    requires ValidConfig(cfg) && Inv(cfg, s)
    ensures CanReturnUncancelled(cfg, s) <==> NoneSpins(s) && (s.cancelled || NoneBroken(s))
  {
    ReturnsIffNoneSpins(cfg, s);
    if NoneSpins(s) && (s.cancelled || NoneBroken(s)) {
      var steps, s' := RunReturns(cfg, s);
      assert Uncancelled(steps);
    }
    if !s.cancelled && !NoneBroken(s) {
      var r: nat :| r < |s.readers| && OnBroken(s, r);
      forall steps, s' | Reaches(cfg, s, steps, s') && Uncancelled(steps)
        ensures s'.result.None?
      {
        BrokenNeverReturns(cfg, s, steps, s', r);
      }
    }
  }

  /** Every schedule runs out of steps, as every step but a cancellation runs the run down; and
      where nothing but a cancellation is left to do, the run has returned exactly when no
      reader spins. So every schedule that leaves nobody waiting returns, or leaves a reader
      spinning; and it returns if no body broke. */
  lemma {:induction false} EndsReturnedUnlessSpinning(cfg: Config, s: State)
    requires ValidConfig(cfg) && Inv(cfg, s) && forall step :: !CanMove(cfg, s, step)
    ensures s.result.Some? <==> NoneSpins(s)
    ensures (forall j | 0 <= j < |s.files| :: !s.files[j].Broken?) ==> s.result.Some?
  {
    if s.result.None? && NoneSpins(s) {
      var step := NeverStuck(cfg, s);
    }
    if s.result.Some? {
      assert forall r: nat | r < |s.readers| :: s.readers[r].Exited?;
    }
  }

  lemma {:induction false} BreaksAtOnce(cfg: Config, s: State)
    requires s.result.None? && s.readers == [Idle] && s.feeding && s.next == 0 && s.files == [] && cfg.jobs != []
    ensures Enabled(cfg, s, Feed(0, Broken([]))) && Spins(Apply(cfg, s, Feed(0, Broken([]))), 0)
  {
    assert PlanFor(cfg, 0, Broken([])) == [];
  }

  lemma {:induction false} BreaksForGood(cfg: Config, s: State)
    requires ValidConfig(cfg) && Inv(cfg, s)
    requires s.result.None? && s.readers == [Idle] && s.feeding && s.next == 0 && s.files == []
    ensures Enabled(cfg, s, Feed(0, Broken([]))) && !CanReturn(cfg, Apply(cfg, s, Feed(0, Broken([]))))
  {
    BreaksAtOnce(cfg, s);
    InvKept(cfg, s, Feed(0, Broken([])));
    ReturnsIffNoneSpins(cfg, Apply(cfg, s, Feed(0, Broken([]))));
  }

  /** One file whose body breaks before its first row: no schedule returns, whether or not the
      run is cancelled. */
  lemma {:induction false} BrokenBodyNeverReturns(key: FileKey, content: (FileKey, string) -> seq<Record>)
    ensures var cfg := Config([key], 1, 1, true, {}, content);
            var start := Initial(cfg, {}, map[]);
            ValidConfig(cfg) && Enabled(cfg, start, Feed(0, Broken([])))
            && !CanReturn(cfg, Apply(cfg, start, Feed(0, Broken([]))))
  {
    var cfg := Config([key], 1, 1, true, {}, content);
    InvInitially(cfg, {}, map[]);
    assert Initial(cfg, {}, map[]).readers == [Idle];
    BreaksForGood(cfg, Initial(cfg, {}, map[]));
  }

  // -------------------------------------------------- a cancelled run can return nil

  lemma {:induction false} ReachesBy(cfg: Config, s: State, step: Step, s': State, steps: seq<Step>, end: State)
    requires Enabled(cfg, s, step) && Apply(cfg, s, step) == s' && Reaches(cfg, s', steps, end)
    ensures Reaches(cfg, s, [step] + steps, end)
  {
  }

  lemma {:induction false} CancelledTail(cfg: Config, s: State)
    requires s.result.None? && s.next == 1 && s.feeding && s.channelOpen && s.readers == [Idle] && s.channel == []
    requires ResultOf(s) == Ok && s.writer.stats.filesRead == 1
    ensures var steps := [Cancel, StopFeeding, Leave(0), CloseChannel, Finish];
            var end := s.(cancelled := true, feeding := false, readers := [Exited], channelOpen := false, result := Some(Ok));
            Reaches(cfg, s, steps, end)
  {
  }

  lemma {:induction false} FeedsEmptyFile(cfg: Config, s: State, key: FileKey)
    requires s.result.None? && s.readers == [Idle] && s.feeding && s.next == 0 && s.files == [] && s.status == []
    requires cfg.jobs != [] && cfg.jobs[0] == key && Admissible(cfg, 0, Body([], "")) && cfg.batchSize == 1
    ensures var step := Feed(0, Body([], ""));
            && Enabled(cfg, s, step)
            && Apply(cfg, s, step)
               == s.(next := 1, readers := [Reading(0, [ClosingChunk(key, "")])], files := [Body([], "")], status := [Working])
  {
    assert PlanFor(cfg, 0, Body([], "")) == [ClosingChunk(key, "")];
    assert s.readers[0 := Reading(0, [ClosingChunk(key, "")])] == [Reading(0, [ClosingChunk(key, "")])];
    assert s.files + [Body([], "")] == [Body([], "")] && s.status + [Working] == [Working];
  }

  lemma {:induction false} SendsClosing(cfg: Config, s: State, key: FileKey)
    requires s.result.None? && s.readers == [Reading(0, [ClosingChunk(key, "")])] && s.status == [Working]
    requires s.channel == [] && cfg.workers == 1 && |s.files| == 1 && !s.files[0].Broken?
    ensures Enabled(cfg, s, Send(0))
    ensures Apply(cfg, s, Send(0)) == s.(channel := [ClosingChunk(key, "")], readers := [Idle], status := [Sent])
  {
  }

  lemma {:induction false} TakesClosing(cfg: Config, s: State, key: FileKey)
    requires s.result.None? && s.channel == [ClosingChunk(key, "")] && s.consumed == [] && cfg.hasLedger
    requires s.writer == WriterState(RunStats(0, 0, 0, 0, 0, 0, 0), false, map[], {}, map[])
    ensures var step := Take(WriteFailed, true);
            && Enabled(cfg, s, step)
            && Apply(cfg, s, step)
               == s.(channel := [], consumed := s.channel,
                     writer := s.writer.(stats := s.writer.stats.(filesRead := 1), tally := map[] - {key}))
  {
  }

  /** Two files, one reader: the first is read, the run is cancelled, the feeder
      stops, and the run returns nil with the second file unread. */
  lemma {:induction false} CancelledRunCanReturnNil(a: FileKey, b: FileKey, content: (FileKey, string) -> seq<Record>)
    requires a != b
    ensures var cfg := Config([a, b], 1, 1, true, {}, content);
            ValidConfig(cfg)
            && exists steps, s :: Reaches(cfg, Initial(cfg, {}, map[]), steps, s)
                 && s.result == Some(Ok) && s.cancelled && s.next == 1 && Settled(s.writer.stats) == 1
  {
    var cfg, file := Config([a, b], 1, 1, true, {}, content), Body([], "");
    var s0 := Initial(cfg, {}, map[]);
    assert s0.readers == [Idle];
    var s1 := s0.(next := 1, readers := [Reading(0, [ClosingChunk(a, "")])], files := [file], status := [Working]);
    var s2 := s1.(readers := [Idle], channel := [ClosingChunk(a, "")], status := [Sent]);
    var writer := WriterState(RunStats(1, 0, 0, 0, 0, 0, 0), false, map[] - {a}, {}, map[]);
    var s3 := s2.(channel := [], consumed := [ClosingChunk(a, "")], writer := writer);
    var tail := [Cancel, StopFeeding, Leave(0), CloseChannel, Finish];
    var end := s3.(cancelled := true, feeding := false, readers := [Exited], channelOpen := false, result := Some(Ok));
    CancelledTail(cfg, s3);
    FeedsEmptyFile(cfg, s0, a);
    SendsClosing(cfg, s1, a);
    TakesClosing(cfg, s2, a);
    ReachesBy(cfg, s2, Take(WriteFailed, true), s3, tail, end);
    ReachesBy(cfg, s1, Send(0), s2, [Take(WriteFailed, true)] + tail, end);
    ReachesBy(cfg, s0, Feed(0, file), s1, [Send(0)] + ([Take(WriteFailed, true)] + tail), end);
    var steps := [Feed(0, file)] + ([Send(0)] + ([Take(WriteFailed, true)] + tail));
    assert Reaches(cfg, s0, steps, end);
  }
}
