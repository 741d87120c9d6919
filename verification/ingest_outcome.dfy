/** What the counts, the ledger and the answer of a run say about the files it met and the
    batches it wrote, in terms of its history alone. */
module IngestOutcomes {
  import opened Collections
  import opened IngestModel
  import opened IngestProof
  import opened IngestRun
  import opened IngestTheorems

  /** Something added up over chunks, files or keys. */
  function Total<T>(s: seq<T>, part: T -> nat): nat {
    if s == [] then 0 else part(s[0]) + Total(s[1..], part)
  }

  lemma {:induction false} TotalOneMore<T>(s: seq<T>, x: T, part: T -> nat)
    ensures Total(s + [x], part) == Total(s, part) + part(x)
  {
    if s == [] {
      assert [] + [x] == [x];
    } else {
      assert (s + [x])[1..] == s[1..] + [x];
      TotalOneMore(s[1..], x, part);
    }
  }

  lemma {:induction false} TotalSame<S, T>(s: seq<S>, t: seq<T>, part: S -> nat, other: T -> nat)
    requires |s| == |t| && forall i | 0 <= i < |s| :: part(s[i]) == other(t[i])
    ensures Total(s, part) == Total(t, other)
  {
    if s != [] {
      TotalSame(s[1..], t[1..], part, other);
    }
  }

  /** A total is positive exactly when something adds to it. */
  lemma {:induction false} TotalPositive<T>(s: seq<T>, part: T -> nat)
    ensures Total(s, part) > 0 <==> exists i :: 0 <= i < |s| && part(s[i]) > 0
  {
    if s != [] {
      TotalPositive(s[1..], part);
      if Total(s[1..], part) > 0 {
        var i :| 0 <= i < |s[1..]| && part(s[1..][i]) > 0;
        assert part(s[i + 1]) > 0;
      }
      if i :| 0 <= i < |s| && part(s[i]) > 0 {
        assert i > 0 ==> part(s[1..][i - 1]) > 0;
      }
    }
  }

  function Skips(c: Chunk): nat {
    if c.skipped then 1 else 0
  }

  function Misses(c: Chunk): nat {
    if c.missing then 1 else 0
  }

  /** A chunk that closes a file that was read. */
  predicate Closing(c: Chunk) {
    c.rows.None? && !c.skipped && !c.missing
  }

  function Closes(c: Chunk): nat {
    if Closing(c) then 1 else 0
  }

  function Seen(c: Chunk): nat {
    c.seen
  }

  function Rejects(c: Chunk): nat {
    c.rejected
  }

  // ------------------------------------------------------- the writes of a history

  /** The turns of the writer among some steps, one for each chunk taken. */
  function Turns(steps: seq<Step>): seq<Step> {
    if steps == [] then [] else TurnOf(steps[0]) + Turns(steps[1..])
  }

  function TurnOf(step: Step): seq<Step> {
    if step.Take? then [step] else []
  }

  predicate AllTurns(turns: seq<Step>) {
    forall i | 0 <= i < |turns| :: turns[i].Take?
  }

  /** A batch whose write failed. */
  ghost predicate SomeWriteFailed(chunks: seq<Chunk>, turns: seq<Step>)
    requires AllTurns(turns) && |chunks| == |turns|
  {
    exists i :: 0 <= i < |chunks| && chunks[i].rows.Some? && turns[i].write.WriteFailed?
  }

  /** Something added up over the batches written, which are those before the first failure. */
  ghost function Written(chunks: seq<Chunk>, turns: seq<Step>, part: (Chunk, Step) -> nat): nat
    requires AllTurns(turns) && |chunks| == |turns|
  {
    if chunks == [] then 0
    else
      var n := |chunks| - 1;
      Written(chunks[..n], turns[..n], part)
      + if chunks[n].rows.Some? && !SomeWriteFailed(chunks, turns) then part(chunks[n], turns[n]) else 0
  }

  function Matches(c: Chunk, turn: Step): nat {
    if turn.Take? && turn.write.Wrote? then turn.write.matches else 0
  }

  function Collapses(c: Chunk, turn: Step): nat {
    if turn.Take? && turn.write.Wrote? then turn.write.collapsed else 0
  }

  function MatchesOf(key: FileKey): (Chunk, Step) -> nat {
    (c: Chunk, turn: Step) => if c.key == key then Matches(c, turn) else 0
  }

  /** The entry of a file after some history: that of its last closing with a validator that
      was recorded with nothing failed, and otherwise the one there was before. */
  ghost function EntryOf(before: map<FileKey, Entry>, hasLedger: bool,
                         chunks: seq<Chunk>, turns: seq<Step>, key: FileKey): Option<Entry>
    requires AllTurns(turns) && |chunks| == |turns|
  {
    if chunks == [] then if key in before then Some(before[key]) else None
    else
      var n := |chunks| - 1;
      var c := chunks[n];
      if c.key == key && Closing(c) && c.validator != "" && hasLedger && turns[n].recorded
         && !SomeWriteFailed(chunks[..n], turns[..n])
      then Some(Entry(c.validator, SeenOf(ByKey(chunks[..n], key)), Written(chunks[..n], turns[..n], MatchesOf(key))))
      else EntryOf(before, hasLedger, chunks[..n], turns[..n], key)
  }

  // ------------------------------------------------- what the writer has accounted for

  /** The counts of files and rows, over the chunks taken. */
  ghost predicate CountsAre(stats: RunStats, chunks: seq<Chunk>) {
    && stats.filesSkipped == Total(chunks, Skips)
    && stats.filesMissing == Total(chunks, Misses)
    && stats.filesRead == Total(chunks, Closes)
    && stats.rowsSeen == Total(chunks, Seen)
    && stats.rowsRejected == Total(chunks, Rejects)
  }

  /** Whether a write failed and what the others wrote, over the chunks taken. */
  ghost predicate WritesAre(w: WriterState, chunks: seq<Chunk>, turns: seq<Step>)
    requires AllTurns(turns) && |chunks| == |turns|
  {
    && (w.failed <==> SomeWriteFailed(chunks, turns))
    && w.stats.rowsWritten == Written(chunks, turns, Matches)
    && w.stats.rowsCollapsed == Written(chunks, turns, Collapses)
  }

  lemma {:induction false} Extended(chunks: seq<Chunk>, turns: seq<Step>, c: Chunk, turn: Step)
    requires AllTurns(turns) && |chunks| == |turns| && turn.Take?
    ensures AllTurns(turns + [turn])
    ensures (chunks + [c])[..|chunks|] == chunks && (turns + [turn])[..|turns|] == turns
    ensures SomeWriteFailed(chunks + [c], turns + [turn])
       <==> SomeWriteFailed(chunks, turns) || (c.rows.Some? && turn.write.WriteFailed?)
  {
    var cs, ts := chunks + [c], turns + [turn];
    if SomeWriteFailed(chunks, turns) {
      var i :| 0 <= i < |chunks| && chunks[i].rows.Some? && turns[i].write.WriteFailed?;
      assert cs[i].rows.Some? && ts[i].write.WriteFailed?;
    }
    if c.rows.Some? && turn.write.WriteFailed? {
      assert cs[|chunks|].rows.Some? && ts[|chunks|].write.WriteFailed?;
    }
    if SomeWriteFailed(cs, ts) {
      var i :| 0 <= i < |cs| && cs[i].rows.Some? && ts[i].write.WriteFailed?;
      assert i < |chunks| ==> chunks[i].rows.Some? && turns[i].write.WriteFailed?;
    }
  }

  lemma {:induction false} CountsStep(w: WriterState, c: Chunk, write: WriteOutcome, hasLedger: bool, recorded: bool, chunks: seq<Chunk>)
    requires CountsAre(w.stats, chunks) && Counted(c)
    ensures CountsAre(WriterStep(w, c, write, hasLedger, recorded).stats, chunks + [c])
  {
    TotalOneMore(chunks, c, Skips);
    TotalOneMore(chunks, c, Misses);
    TotalOneMore(chunks, c, Closes);
    TotalOneMore(chunks, c, Seen);
    TotalOneMore(chunks, c, Rejects);
  }

  lemma {:induction false} WritesStep(w: WriterState, c: Chunk, turn: Step, hasLedger: bool, chunks: seq<Chunk>, turns: seq<Step>)
    requires AllTurns(turns) && |chunks| == |turns| && turn.Take?
    requires WritesAre(w, chunks, turns) && Counted(c)
    ensures AllTurns(turns + [turn])
    ensures WritesAre(WriterStep(w, c, turn.write, hasLedger, turn.recorded), chunks + [c], turns + [turn])
  {
    Extended(chunks, turns, c, turn);
  }

  /** Until its file ends a tally has what was written of it. */
  ghost predicate TalliesAre(w: WriterState, chunks: seq<Chunk>, turns: seq<Step>, key: FileKey)
    requires AllTurns(turns) && |chunks| == |turns|
  {
    Terminals(ByKey(chunks, key)) == 0 ==> TallyOf(w, key).written == Written(chunks, turns, MatchesOf(key))
  }

  lemma {:induction false} TalliesStep(w: WriterState, c: Chunk, turn: Step, hasLedger: bool,
                                      chunks: seq<Chunk>, turns: seq<Step>, key: FileKey)
    requires AllTurns(turns) && |chunks| == |turns| && turn.Take? && Counted(c)
    requires w.failed <==> SomeWriteFailed(chunks, turns)
    requires TalliesAre(w, chunks, turns, key)
    ensures AllTurns(turns + [turn])
    ensures TalliesAre(WriterStep(w, c, turn.write, hasLedger, turn.recorded), chunks + [c], turns + [turn], key)
  {
    Extended(chunks, turns, c, turn);
    ByKeyAppend(chunks, [c], key);
    ByKeyOne(c, key);
    TerminalsAppend(ByKey(chunks, key), if c.key == key then [c] else []);
  }

  /** A file's entry is the one its history makes. */
  ghost predicate EntriesAre(ledger: map<FileKey, Entry>, before: map<FileKey, Entry>, hasLedger: bool,
                             chunks: seq<Chunk>, turns: seq<Step>, key: FileKey)
    requires AllTurns(turns) && |chunks| == |turns|
  {
    EntryOf(before, hasLedger, chunks, turns, key) == if key in ledger then Some(ledger[key]) else None
  }

  lemma {:induction false} EntriesStep(w: WriterState, c: Chunk, turn: Step, hasLedger: bool, before: map<FileKey, Entry>,
                                      chunks: seq<Chunk>, turns: seq<Step>, key: FileKey)
    requires AllTurns(turns) && |chunks| == |turns| && turn.Take? && Counted(c)
    requires w.failed <==> SomeWriteFailed(chunks, turns)
    requires EntriesAre(w.ledger, before, hasLedger, chunks, turns, key)
    requires c.key == key ==> TalliesAre(w, chunks, turns, key) && Terminals(ByKey(chunks, key)) == 0
    requires c.key == key ==> TallyOf(w, key).seen == SeenOf(ByKey(chunks, key))
    ensures AllTurns(turns + [turn])
    ensures EntriesAre(WriterStep(w, c, turn.write, hasLedger, turn.recorded).ledger, before, hasLedger,
                       chunks + [c], turns + [turn], key)
  {
    Extended(chunks, turns, c, turn);
  }

  /** Everything the writer keeps, told from the history of a run. */
  ghost predicate Accounts(cfg: Config, before: map<FileKey, Entry>, s: State, turns: seq<Step>) {
    && AllTurns(turns) && |s.consumed| == |turns|
    && CountsAre(s.writer.stats, s.consumed)
    && WritesAre(s.writer, s.consumed, turns)
    && (forall key :: TalliesAre(s.writer, s.consumed, turns, key))
    && (forall key :: EntriesAre(s.writer.ledger, before, cfg.hasLedger, s.consumed, turns, key))
  }

  lemma {:induction false} TakeAccounts(cfg: Config, before: map<FileKey, Entry>, s: State, turns: seq<Step>, step: Step)
    requires ValidConfig(cfg) && Inv(cfg, s) && Accounts(cfg, before, s, turns) && Enabled(cfg, s, step) && step.Take?
    ensures Accounts(cfg, before, Apply(cfg, s, step), turns + [step])
  {
    var s', c := Apply(cfg, s, step), s.channel[0];
    var j, n := TakenContinues(cfg, s);
    NoTerminals(ByKey(s.consumed, c.key));
    CountsStep(s.writer, c, step.write, cfg.hasLedger, step.recorded, s.consumed);
    WritesStep(s.writer, c, step, cfg.hasLedger, s.consumed, turns);
    forall key
      ensures TalliesAre(s'.writer, s'.consumed, turns + [step], key)
    {
      assert TalliesAre(s.writer, s.consumed, turns, key);
      TalliesStep(s.writer, c, step, cfg.hasLedger, s.consumed, turns, key);
    }
    forall key
      ensures EntriesAre(s'.writer.ledger, before, cfg.hasLedger, s'.consumed, turns + [step], key)
    {
      assert EntriesAre(s.writer.ledger, before, cfg.hasLedger, s.consumed, turns, key);
      assert TalliesAre(s.writer, s.consumed, turns, key);
      EntriesStep(s.writer, c, step, cfg.hasLedger, before, s.consumed, turns, key);
    }
  }

  lemma {:induction false} StepAccounts(cfg: Config, before: map<FileKey, Entry>, s: State, turns: seq<Step>, step: Step)
    requires ValidConfig(cfg) && Inv(cfg, s) && Accounts(cfg, before, s, turns) && Enabled(cfg, s, step)
    ensures Accounts(cfg, before, Apply(cfg, s, step), turns + TurnOf(step))
  {
    if step.Take? {
      TakeAccounts(cfg, before, s, turns, step);
    } else {
      assert turns + [] == turns;
      assert Apply(cfg, s, step).consumed == s.consumed && Apply(cfg, s, step).writer == s.writer;
    }
  }

  lemma {:induction false} ReachesAccounts(cfg: Config, before: map<FileKey, Entry>, s: State, turns: seq<Step>,
                                           steps: seq<Step>, s': State)
    requires ValidConfig(cfg) && Inv(cfg, s) && Accounts(cfg, before, s, turns) && Reaches(cfg, s, steps, s')
    ensures Accounts(cfg, before, s', turns + Turns(steps))
    decreases |steps|
  {
    if steps == [] {
      assert turns + [] == turns;
    } else {
      InvKept(cfg, s, steps[0]);
      StepAccounts(cfg, before, s, turns, steps[0]);
      ReachesAccounts(cfg, before, Apply(cfg, s, steps[0]), turns + TurnOf(steps[0]), steps[1..], s');
      TurnsGoOn(turns, steps);
    }
  }

  lemma {:induction false} TurnsGoOn(turns: seq<Step>, steps: seq<Step>)
    requires steps != []
    ensures (turns + TurnOf(steps[0])) + Turns(steps[1..]) == turns + Turns(steps)
  {
  }

  /** After any run, however it stopped, the counts, the writes, the failure and the ledger are
      what its history makes them. */
  lemma {:induction false} HistoryAccounts(stored: set<(FileKey, Row)>, ledger: map<FileKey, Entry>, run: Run)
    requires LedgerSound(run.cfg.content, stored, ledger) && RunsFrom(stored, ledger, run)
    ensures Accounts(run.cfg, ledger, run.end, Turns(run.steps))
  {
    var start := Initial(run.cfg, stored, ledger);
    InvInitially(run.cfg, stored, ledger);
    assert Accounts(run.cfg, ledger, start, []);
    ReachesAccounts(run.cfg, ledger, start, [], run.steps, run.end);
    assert [] + Turns(run.steps) == Turns(run.steps);
  }

  // ----------------------------------------------------------------- what was lost

  /** A file its reader failed on: lost, and neither unchanged nor missing. */
  predicate FailedOn(s: State, j: nat) {
    j < |s.files| && j < |s.status| && s.status[j] == Lost && !s.files[j].Unchanged? && !s.files[j].NotFound?
  }

  /** There are read errors exactly when some reader failed, and a file that is lost was not
      sent whole. */
  ghost predicate LossesAre(cfg: Config, s: State)
    requires Structure(cfg, s)
  {
    && (s.readErrs > 0 <==> exists j :: FailedOn(s, j))
    && (forall j: nat | j < s.next && s.status[j] == Lost && !s.files[j].Failed? :: SentShort(cfg, s, j))
  }

  ghost predicate SentShort(cfg: Config, s: State, j: nat)
    requires j < |cfg.jobs| && j < |s.files|
  {
    |Sofar(s, cfg.jobs[j])| < |PlanFor(cfg, j, s.files[j])|
  }

  /** The first chunk still to be sent says what kind of file it is. */
  lemma {:induction false} PendingSays(cfg: Config, s: State, r: nat)
    requires ValidConfig(cfg) && Inv(cfg, s) && HasChunk(s, r)
    ensures var Reading(job, pending) := s.readers[r];
            && job < s.next && s.status[job] == Working && SentShort(cfg, s, job)
            && (pending[0].skipped || pending[0].missing <==> s.files[job].Unchanged? || s.files[job].NotFound?)
  {
    var Reading(job, pending) := s.readers[r];
    assert On(s, r, job) && ReaderFlows(cfg, s, r);
    PlanWellFormed(cfg.jobs[job], s.files[job], cfg.batchSize);
    var plan, n := PlanFor(cfg, job, s.files[job]), |Sofar(s, cfg.jobs[job])|;
    assert pending[0] == plan[n];
    KindOfPlan(cfg.jobs[job], s.files[job], cfg.batchSize, n);
  }

  lemma {:induction false} KindOfPlan(key: FileKey, file: Opened, batchSize: nat, n: nat)
    requires n < |PlanOf(key, file, batchSize)|
    ensures var c := PlanOf(key, file, batchSize)[n];
            && (c.skipped <==> file.Unchanged?) && (c.missing <==> file.NotFound?)
            && (Closing(c) ==> file.Body?)
  {
    PlanWellFormed(key, file, batchSize);
  }

  /** The file a step loses to an error, if it does. */
  predicate FailsOn(s: State, step: Step, j: nat) {
    match step
    case Feed(_, file) => file.Failed? && j == s.next
    case Abandon(r) => HasChunk(s, r) && j == s.readers[r].job && !s.files[j].Unchanged? && !s.files[j].NotFound?
    case _ => false
  }

  /** What a reader's step on a chunk of its file finds. */
  predicate OnItsFile(s: State, step: Step) {
    step.Send? || step.Abandon? ==>
      && HasChunk(s, step.reader)
      && var Reading(job, pending) := s.readers[step.reader];
         && s.status[job] == Working
         && (pending[0].skipped || pending[0].missing <==> s.files[job].Unchanged? || s.files[job].NotFound?)
  }

  lemma {:induction false} FailedOnNow(cfg: Config, s: State, step: Step, j: nat)
    requires Enabled(cfg, s, step) && |s.files| == |s.status| == s.next && OnItsFile(s, step)
    ensures FailedOn(Apply(cfg, s, step), j) <==> FailedOn(s, j) || FailsOn(s, step, j)
  {
  }

  lemma {:induction false} ErrsNow(cfg: Config, s: State, step: Step)
    requires Enabled(cfg, s, step) && OnItsFile(s, step)
    ensures Apply(cfg, s, step).readErrs == s.readErrs + if exists j :: FailsOn(s, step, j) then 1 else 0
  {
    if step.Feed? && step.file.Failed? {
      assert FailsOn(s, step, s.next);
    } else if step.Abandon? {
      var job := s.readers[step.reader].job;
      assert !s.files[job].Unchanged? && !s.files[job].NotFound? ==> FailsOn(s, step, job);
    }
  }

  lemma {:induction false} FailedOnKept(cfg: Config, s: State, step: Step)
    requires Enabled(cfg, s, step) && |s.files| == |s.status| == s.next && OnItsFile(s, step)
    requires s.readErrs > 0 <==> exists j :: FailedOn(s, j)
    ensures Apply(cfg, s, step).readErrs > 0 <==> exists j :: FailedOn(Apply(cfg, s, step), j)
  {
    ErrsNow(cfg, s, step);
    forall j: nat
      ensures FailedOn(Apply(cfg, s, step), j) <==> FailedOn(s, j) || FailsOn(s, step, j)
    {
      FailedOnNow(cfg, s, step, j);
    }
  }

  /** Only a send touches what was sent, and only of a file still worked on. */
  lemma {:induction false} SofarKept(cfg: Config, s: State, step: Step, j: nat)
    requires ValidConfig(cfg) && Inv(cfg, s) && Enabled(cfg, s, step) && j < s.next
    requires Apply(cfg, s, step).status[j] == Lost
    ensures Sofar(Apply(cfg, s, step), cfg.jobs[j]) == Sofar(s, cfg.jobs[j])
  {
    if step.Send? {
      SendKeepsOthers(cfg, s, step.reader, j);
    } else {
      SentStands(cfg, s, step);
    }
  }

  lemma {:induction false} SentStands(cfg: Config, s: State, step: Step)
    requires Enabled(cfg, s, step) && !step.Send?
    ensures Apply(cfg, s, step).consumed + Apply(cfg, s, step).channel == s.consumed + s.channel
  {
    if step.Take? {
      assert (s.consumed + [s.channel[0]]) + s.channel[1..] == s.consumed + s.channel;
    }
  }

  lemma {:induction false} SendElsewhere(cfg: Config, s: State, s': State, c: Chunk, i: nat, j: nat)
    requires ValidConfig(cfg) && i < |cfg.jobs| && j < |cfg.jobs| && i != j && c.key == cfg.jobs[i]
    requires s'.consumed == s.consumed && s'.channel == s.channel + [c]
    ensures Sofar(s', cfg.jobs[j]) == Sofar(s, cfg.jobs[j])
  {
    SofarAfterSend(s, s', c, cfg.jobs[j]);
  }

  lemma {:induction false} SendKeepsOthers(cfg: Config, s: State, r: nat, j: nat)
    requires ValidConfig(cfg) && Inv(cfg, s) && Enabled(cfg, s, Send(r)) && j < s.next
    requires s.status[j] == Lost
    ensures Sofar(Apply(cfg, s, Send(r)), cfg.jobs[j]) == Sofar(s, cfg.jobs[j])
  {
    PendingSays(cfg, s, r);
    SendsOwnFile(cfg, s, r);
    SendElsewhere(cfg, s, Apply(cfg, s, Send(r)), s.readers[r].pending[0], s.readers[r].job, j);
  }

  lemma {:induction false} SentShortKept(cfg: Config, s: State, step: Step, j: nat)
    requires ValidConfig(cfg) && Inv(cfg, s) && Enabled(cfg, s, step) && LossesAre(cfg, s)
    requires var s' := Apply(cfg, s, step);
             && j < s'.next && |s'.status| == |s'.files| == s'.next <= |cfg.jobs|
             && s'.status[j] == Lost && !s'.files[j].Failed?
    ensures SentShort(cfg, Apply(cfg, s, step), j)
  {
    LostBefore(cfg, s, step, j);
    SofarKept(cfg, s, step, j);
    if s.status[j] != Lost {
      PendingSays(cfg, s, step.reader);
    }
  }

  lemma {:induction false} LostBefore(cfg: Config, s: State, step: Step, j: nat)
    requires Enabled(cfg, s, step) && |s.files| == |s.status| == s.next
    requires var s' := Apply(cfg, s, step); j < |s'.status| && j < |s'.files| && s'.status[j] == Lost && !s'.files[j].Failed?
    ensures j < s.next && s.files[j] == Apply(cfg, s, step).files[j]
    ensures s.status[j] == Lost || (step.Abandon? && s.readers[step.reader].job == j)
  {
  }

  lemma {:induction false} LossesKept(cfg: Config, s: State, step: Step)
    requires ValidConfig(cfg) && Inv(cfg, s) && Enabled(cfg, s, step) && LossesAre(cfg, s)
    requires Structure(cfg, Apply(cfg, s, step))
    ensures LossesAre(cfg, Apply(cfg, s, step))
  {
    if step.Send? || step.Abandon? {
      PendingSays(cfg, s, step.reader);
    }
    FailedOnKept(cfg, s, step);
    var s' := Apply(cfg, s, step);
    forall j: nat | j < s'.next && s'.status[j] == Lost && !s'.files[j].Failed?
      ensures SentShort(cfg, s', j)
    {
      SentShortKept(cfg, s, step, j);
    }
  }

  lemma {:induction false} ReachesLosses(cfg: Config, s: State, steps: seq<Step>, s': State)
    requires ValidConfig(cfg) && Inv(cfg, s) && LossesAre(cfg, s) && Reaches(cfg, s, steps, s')
    ensures Inv(cfg, s') && LossesAre(cfg, s')
    decreases |steps|
  {
    if steps != [] {
      InvKept(cfg, s, steps[0]);
      LossesKept(cfg, s, steps[0]);
      ReachesLosses(cfg, Apply(cfg, s, steps[0]), steps[1..], s');
    }
  }

  // ------------------------------------------------------------- what a run answers

  /** A file whose reader is through with it and that was found, changed or not. */
  predicate Found(s: State, j: nat) {
    j < |s.files| && j < |s.status| && s.status[j] == Sent && (s.files[j].Body? || s.files[j].Unchanged?)
  }

  predicate Finds(c: Chunk) {
    c.skipped || Closing(c)
  }

  /** Once the readers are through, a file was found exactly when a chunk that says so was taken. */
  lemma {:induction false} FoundIsTaken(cfg: Config, s: State, j: nat)
    requires ValidConfig(cfg) && Inv(cfg, s) && s.channel == [] && Found(s, j)
    ensures exists i :: 0 <= i < |s.consumed| && Finds(s.consumed[i])
  {
    assert JobFlows(cfg, s, j) && s.consumed + [] == s.consumed;
    var plan := PlanFor(cfg, j, s.files[j]);
    PlanWellFormed(cfg.jobs[j], s.files[j], cfg.batchSize);
    var last := plan[|plan| - 1];
    KindOfPlan(cfg.jobs[j], s.files[j], cfg.batchSize, |plan| - 1);
    assert Finds(last);
    ByKeyMembers(s.consumed, cfg.jobs[j]);
    assert last in ByKey(s.consumed, cfg.jobs[j]);
  }

  lemma {:induction false} TakenIsFound(cfg: Config, s: State, i: nat) returns (j: nat)
    requires ValidConfig(cfg) && Inv(cfg, s) && LossesAre(cfg, s) && s.channel == [] && !s.channelOpen
    requires i < |s.consumed| && Finds(s.consumed[i])
    ensures Found(s, j)
  {
    var c := s.consumed[i];
    assert c in s.consumed + s.channel;
    j :| 0 <= j < s.next && cfg.jobs[j] == c.key;
    assert JobFlows(cfg, s, j);
    var plan := PlanFor(cfg, j, s.files[j]);
    PlanWellFormed(cfg.jobs[j], s.files[j], cfg.batchSize);
    InByKey(s.consumed + s.channel, c);
    var n: nat :| n < |Sofar(s, c.key)| && Sofar(s, c.key)[n] == c;
    assert plan[n] == c && n == |plan| - 1;
    KindOfPlan(cfg.jobs[j], s.files[j], cfg.batchSize, n);
    assert s.status[j] == Working ==> exists r :: On(s, r, j);
    assert s.status[j] == Lost ==> SentShort(cfg, s, j);
  }

  /** Nothing was read or skipped exactly when no file was found. */
  lemma {:induction false} NothingReadIff(cfg: Config, s: State)
    requires ValidConfig(cfg) && Inv(cfg, s) && LossesAre(cfg, s) && s.channel == [] && !s.channelOpen
    requires CountsAre(s.writer.stats, s.consumed)
    ensures s.writer.stats.filesRead == 0 && s.writer.stats.filesSkipped == 0 <==> forall j: nat :: !Found(s, j)
  {
    TotalPositive(s.consumed, Closes);
    TotalPositive(s.consumed, Skips);
    if j: nat :| Found(s, j) {
      FoundIsTaken(cfg, s, j);
      var i: nat :| i < |s.consumed| && Finds(s.consumed[i]);
      assert Skips(s.consumed[i]) > 0 || Closes(s.consumed[i]) > 0;
    }
    if i: nat :| i < |s.consumed| && (Skips(s.consumed[i]) > 0 || Closes(s.consumed[i]) > 0) {
      var j := TakenIsFound(cfg, s, i);
    }
  }

  /** Something went wrong: a batch could not be written, or a reader failed. */
  ghost predicate WentWrong(s: State, turns: seq<Step>)
    requires AllTurns(turns) && |s.consumed| == |turns|
  {
    SomeWriteFailed(s.consumed, turns) || exists j :: FailedOn(s, j)
  }

  /** What a finished run answers: that it failed, exactly when a batch could not be written or a
      reader failed; else that it found nothing, exactly when no file its readers were through
      with had a body or was unchanged; else that all is well. */
  lemma {:induction false} AnswerMeans(stored: set<(FileKey, Row)>, ledger: map<FileKey, Entry>, run: Run)
    requires LedgerSound(run.cfg.content, stored, ledger) && RunsFrom(stored, ledger, run) && run.end.result.Some?
    ensures Accounts(run.cfg, ledger, run.end, Turns(run.steps))
    ensures run.end.result == Some(RunFailed) <==> WentWrong(run.end, Turns(run.steps))
    ensures run.end.result == Some(NothingFound)
       <==> !WentWrong(run.end, Turns(run.steps)) && forall j: nat :: !Found(run.end, j)
    ensures run.end.result == Some(Ok)
       <==> !WentWrong(run.end, Turns(run.steps)) && exists j: nat :: Found(run.end, j)
  {
    var start := Initial(run.cfg, stored, ledger);
    InvInitially(run.cfg, stored, ledger);
    assert LossesAre(run.cfg, start);
    ReachesLosses(run.cfg, start, run.steps, run.end);
    HistoryAccounts(stored, ledger, run);
    NothingReadIff(run.cfg, run.end);
  }

  // ------------------------------------------------------- the summary of a whole run

  function Bodies(file: Opened): nat {
    if file.Body? then 1 else 0
  }

  function Unchangeds(file: Opened): nat {
    if file.Unchanged? then 1 else 0
  }

  function NotFounds(file: Opened): nat {
    if file.NotFound? then 1 else 0
  }

  function RecordsIn(file: Opened): nat {
    if file.Body? then |file.records| else 0
  }

  function UnreadableIn(file: Opened): nat {
    if file.Body? then Total(file.records, IsUnreadable) else 0
  }

  function IsUnreadable(record: Record): nat {
    if record.Unreadable? then 1 else 0
  }

  lemma {:induction false} ParsedAndUnreadable(records: seq<Record>)
    ensures |ParsedRows(records)| + Total(records, IsUnreadable) == |records|
  {
    if records != [] {
      ParsedAndUnreadable(records[1..]);
    }
  }

  lemma {:induction false} CountedTotals(chunks: seq<Chunk>)
    requires forall i | 0 <= i < |chunks| :: Counted(chunks[i])
    ensures Total(chunks, Seen) == SeenOf(chunks)
    ensures |RowsOf(chunks)| + Total(chunks, Rejects) == SeenOf(chunks)
  {
    if chunks != [] {
      assert Counted(chunks[0]);
      CountedTotals(chunks[1..]);
    }
  }

  lemma {:induction false} TotalNone<T>(s: seq<T>, part: T -> nat)
    requires forall i | 0 <= i < |s| :: part(s[i]) == 0
    ensures Total(s, part) == 0
  {
    if s != [] {
      TotalNone(s[1..], part);
    }
  }

  /** What the chunks of a file that ends add to each count. */
  lemma {:induction false} PlanCounts(key: FileKey, file: Opened, batchSize: nat)
    requires !file.Failed? && !file.Broken?
    ensures var plan := PlanOf(key, file, batchSize);
            && Total(plan, Skips) == Unchangeds(file) && Total(plan, Misses) == NotFounds(file)
            && Total(plan, Closes) == Bodies(file)
            && Total(plan, Seen) == RecordsIn(file) && Total(plan, Rejects) == UnreadableIn(file)
  {
    var plan := PlanOf(key, file, batchSize);
    if file.Body? {
      PlanWellFormed(key, file, batchSize);
      CountedTotals(plan);
      ParsedAndUnreadable(file.records);
      var init, close := plan[..|plan| - 1], ClosingChunk(key, file.validator);
      assert plan == init + [close];
      forall i | 0 <= i < |init|
        ensures Skips(init[i]) == 0 && Misses(init[i]) == 0 && Closes(init[i]) == 0
      {
        assert init[i] == plan[i] && Counted(plan[i]) && !Terminal(plan[i]);
      }
      TotalNone(init, Skips);
      TotalNone(init, Misses);
      TotalNone(init, Closes);
      TotalOneMore(init, close, Skips);
      TotalOneMore(init, close, Misses);
      TotalOneMore(init, close, Closes);
    }
  }

  function PartOf(chunks: seq<Chunk>, part: Chunk -> nat): FileKey -> nat {
    (key: FileKey) => Total(ByKey(chunks, key), part)
  }

  lemma {:induction false} TotalBump<T>(s: seq<T>, before: T -> nat, after: T -> nat, i: nat, more: nat)
    requires i < |s| && after(s[i]) == before(s[i]) + more
    requires forall j | 0 <= j < |s| && j != i :: after(s[j]) == before(s[j])
    ensures Total(s, after) == Total(s, before) + more
  {
    if i == 0 {
      TotalSame(s[1..], s[1..], after, before);
    } else {
      TotalBump(s[1..], before, after, i - 1, more);
    }
  }

  /** What chunks of distinct files add up to is what each file's add up to, added up. */
  lemma {:induction false} TotalByKey(jobs: seq<FileKey>, chunks: seq<Chunk>, part: Chunk -> nat)
    requires forall i, j | 0 <= i < j < |jobs| :: jobs[i] != jobs[j]
    requires forall i | 0 <= i < |chunks| :: chunks[i].key in jobs
    ensures Total(chunks, part) == Total(jobs, PartOf(chunks, part))
  {
    if chunks == [] {
      TotalNone(jobs, PartOf(chunks, part));
    } else {
      assert forall i | 0 <= i < |chunks[1..]| :: chunks[1..][i] == chunks[i + 1];
      TotalByKey(jobs, chunks[1..], part);
      var i: nat :| i < |jobs| && jobs[i] == chunks[0].key;
      forall j | 0 <= j < |jobs|
        ensures PartOf(chunks, part)(jobs[j]) == PartOf(chunks[1..], part)(jobs[j]) + if j == i then part(chunks[0]) else 0
      {
        PartOfFirst(chunks, part, jobs[j]);
      }
      TotalBump(jobs, PartOf(chunks[1..], part), PartOf(chunks, part), i, part(chunks[0]));
    }
  }

  lemma {:induction false} PartOfFirst(chunks: seq<Chunk>, part: Chunk -> nat, key: FileKey)
    requires chunks != []
    ensures PartOf(chunks, part)(key) == PartOf(chunks[1..], part)(key) + if chunks[0].key == key then part(chunks[0]) else 0
  {
    if chunks[0].key == key {
      assert ByKey(chunks, key)[1..] == ByKey(chunks[1..], key);
    } else {
      assert ByKey(chunks, key) == ByKey(chunks[1..], key);
    }
  }

  /** Every planned file was sent whole. */
  predicate AllSent(cfg: Config, s: State) {
    s.next == |cfg.jobs| == |s.files| == |s.status| && forall j | 0 <= j < |s.status| :: s.status[j] == Sent
  }

  lemma {:induction false} UncancelledSendsAll(cfg: Config, s: State)
    requires ValidConfig(cfg) && Inv(cfg, s) && s.result.Some? && s.readErrs == 0 && !s.cancelled
    ensures AllSent(cfg, s)
  {
    assert s.readers[0].Exited?;
    forall j | 0 <= j < |s.status|
      ensures s.status[j] == Sent
    {
      NoneLost(s.status, j);
      assert s.status[j] == Working ==> exists r :: On(s, r, j);
    }
  }

  lemma {:induction false} CountByFile(cfg: Config, s: State, part: Chunk -> nat, perFile: Opened -> nat)
    requires ValidConfig(cfg) && Inv(cfg, s) && s.channel == [] && AllSent(cfg, s)
    requires forall j | 0 <= j < |s.files| :: Total(PlanFor(cfg, j, s.files[j]), part) == perFile(s.files[j])
    ensures Total(s.consumed, part) == Total(s.files, perFile)
  {
    assert s.consumed + [] == s.consumed;
    forall i | 0 <= i < |s.consumed|
      ensures s.consumed[i].key in cfg.jobs
    {
      assert s.consumed[i] in s.consumed + s.channel;
    }
    TotalByKey(cfg.jobs, s.consumed, part);
    forall j | 0 <= j < |cfg.jobs|
      ensures PartOf(s.consumed, part)(cfg.jobs[j]) == perFile(s.files[j])
    {
      assert JobFlows(cfg, s, j);
    }
    TotalSame(cfg.jobs, s.files, PartOf(s.consumed, part), perFile);
  }

  /** The counts of a summary, over the planned files. */
  ghost predicate Summarises(stats: RunStats, files: seq<Opened>) {
    && stats.filesRead == Total(files, Bodies)
    && stats.filesSkipped == Total(files, Unchangeds)
    && stats.filesMissing == Total(files, NotFounds)
    && stats.rowsSeen == Total(files, RecordsIn)
    && stats.rowsRejected == Total(files, UnreadableIn)
  }

  lemma {:induction false} AllSentSummarised(cfg: Config, s: State)
    requires ValidConfig(cfg) && Inv(cfg, s) && s.channel == [] && AllSent(cfg, s)
    requires CountsAre(s.writer.stats, s.consumed)
    ensures Summarises(s.writer.stats, s.files)
  {
    forall j | 0 <= j < |s.files|
      ensures var plan, file := PlanFor(cfg, j, s.files[j]), s.files[j];
              && Total(plan, Skips) == Unchangeds(file) && Total(plan, Misses) == NotFounds(file)
              && Total(plan, Closes) == Bodies(file)
              && Total(plan, Seen) == RecordsIn(file) && Total(plan, Rejects) == UnreadableIn(file)
    {
      PlanCounts(cfg.jobs[j], s.files[j], cfg.batchSize);
    }
    CountByFile(cfg, s, Skips, Unchangeds);
    CountByFile(cfg, s, Misses, NotFounds);
    CountByFile(cfg, s, Closes, Bodies);
    CountByFile(cfg, s, Seen, RecordsIn);
    CountByFile(cfg, s, Rejects, UnreadableIn);
  }

  lemma {:induction false} AllSentFound(cfg: Config, s: State)
    requires Structure(cfg, s) && AllSent(cfg, s)
    ensures (exists j: nat :: Found(s, j)) <==> exists j :: 0 <= j < |s.files| && (s.files[j].Body? || s.files[j].Unchanged?)
    ensures (forall j: nat :: !Found(s, j)) <==> forall j | 0 <= j < |s.files| :: s.files[j].NotFound?
  {
    forall j: nat | j < |s.files|
      ensures Found(s, j) <==> !s.files[j].NotFound?
      ensures Found(s, j) <==> s.files[j].Body? || s.files[j].Unchanged?
    {
    }
  }

  /** The summary of a run that was not cancelled and did not fail: each planned file counted
      once under what it was, every record seen, every unreadable one rejected, and the parsed
      rows written or collapsed. It found nothing exactly when every planned file was missing. */
  lemma {:induction false} SummaryMeans(stored: set<(FileKey, Row)>, ledger: map<FileKey, Entry>, run: Run)
    requires LedgerSound(run.cfg.content, stored, ledger) && RunsFrom(stored, ledger, run)
    requires run.end.result.Some? && run.end.result != Some(RunFailed) && !run.end.cancelled
    ensures var files, stats := run.end.files, run.end.writer.stats;
            && |files| == |run.cfg.jobs| && Summarises(stats, files)
            && stats.rowsWritten + stats.rowsCollapsed + stats.rowsRejected == stats.rowsSeen
            && (run.end.result == Some(NothingFound) <==> forall j | 0 <= j < |files| :: files[j].NotFound?)
            && (run.end.result == Some(Ok) <==> exists j :: 0 <= j < |files| && (files[j].Body? || files[j].Unchanged?))
  {
    var cfg, s := run.cfg, run.end;
    InvInitially(cfg, stored, ledger);
    ReachesInv(cfg, Initial(cfg, stored, ledger), run.steps, s);
    AnswerMeans(stored, ledger, run);
    UncancelledSendsAll(cfg, s);
    AllSentSummarised(cfg, s);
    AllSentFound(cfg, s);
  }
}
