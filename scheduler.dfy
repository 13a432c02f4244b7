/** The trainer process `main`: load the corpus once, then repeatedly pick the
    oldest queued job, select its training rows, train it and publish the
    artifact, until the queue is empty or an error escapes. */
module Scheduler {
  import opened Common
  import opened Collate
  import opened AutoAdjust
  import opened Documents
  import opened JobQueue
  import opened Epochs

  /** One row of the training corpus: the id of the sentence it comes from and
      its remaining cells. */
  datatype CorpusRow = CorpusRow(sentenceId: string, cells: seq<string>)

  /** What the dataset builder yields: the samples, the positive label and the
      map from label name to label index. */
  datatype Dataset = Dataset(samples: seq<Sample>, positiveLabel: nat, labelMap: map<string, nat>)

  /** The error that escapes one iteration, before its traceback is formatted. */
  datatype Failure = DatasetFailed | LabelMissing | TrainingFailed(failure: TrainFailure)

  /** What the trainer depends on but this model does not define: the corpus
      loaded at start-up, the store's evaluation of a filter on a labelled
      sentence, the dataset builder, one forward/backward pass, the traceback
      text of an error, and the configured batch size. */
  datatype Context = Context(
    corpus: seq<CorpusRow>,
    matches: (Filter, LabeledText) -> bool,
    build: (seq<CorpusRow>, string) -> Option<Dataset>,
    attempt: (nat, seq<BatchRow>) -> Attempt,
    traceOf: Failure -> string,
    batchSize: nat)

  /** The ids of the labelled sentences the store returns for a filter. */
  function MatchingIds(texts: seq<LabeledText>, filter: Filter, matches: (Filter, LabeledText) -> bool): (ids: set<string>)
    ensures forall i | 0 <= i < |texts| && matches(filter, texts[i]) :: texts[i].id in ids
    ensures forall id | id in ids :: exists i | 0 <= i < |texts| :: matches(filter, texts[i]) && texts[i].id == id
  {
    set i | 0 <= i < |texts| && matches(filter, texts[i]) :: texts[i].id
  }

  /** `get_target_df_by_filter`: the corpus rows whose sentence id is wanted,
      in corpus order. */
  function FilterRows(rows: seq<CorpusRow>, wanted: set<string>): (r: seq<CorpusRow>)
    ensures |r| <= |rows|
    ensures forall i | 0 <= i < |r| :: r[i].sentenceId in wanted && r[i] in rows
    ensures forall i | 0 <= i < |rows| && rows[i].sentenceId in wanted :: rows[i] in r
  {
    if rows == [] then []
    else
      assert forall i | 1 <= i < |rows| :: rows[i] == rows[1..][i - 1];
      (if rows[0].sentenceId in wanted then [rows[0]] else []) + FilterRows(rows[1..], wanted)
  }

  /** Filtering keeps the corpus order: it distributes over concatenation. */
  lemma {:induction false} FilterRowsAppend(a: seq<CorpusRow>, b: seq<CorpusRow>, wanted: set<string>)
    ensures FilterRows(a + b, wanted) == FilterRows(a, wanted) + FilterRows(b, wanted)
  {
    if a == [] {
      assert a + b == b;
    } else {
      assert (a + b)[0] == a[0];
      assert (a + b)[1..] == a[1..] + b;
      FilterRowsAppend(a[1..], b, wanted);
    }
  }

  /** The rows a job trains on. */
  function TargetRows(texts: seq<LabeledText>, ctx: Context, job: Job): seq<CorpusRow>
  {
    FilterRows(ctx.corpus, MatchingIds(texts, job.trainDataFilter, ctx.matches))
  }

  /** `f"{label_name}_epoch_{Epoch_Times}_{dateStamp}"`. */
  function ArtifactName(labelName: string, epochs: nat, dateStamp: string): (name: string)
    ensures |name| > |labelName| + 8 + |dateStamp|
    ensures name[..|labelName| + 7] == labelName + "_epoch_"
    ensures name[|name| - |dateStamp| - 1..] == "_" + dateStamp
    ensures name == labelName + "_epoch_" + NatToString(epochs) + "_" + dateStamp
  {
    var name := labelName + "_epoch_" + NatToString(epochs) + "_" + dateStamp;
    assert name == (labelName + "_epoch_") + (NatToString(epochs) + "_" + dateStamp);
    assert name == (labelName + "_epoch_" + NatToString(epochs)) + ("_" + dateStamp);
    name
  }

  /** The fields of a job the trainer never rewrites. */
  predicate SameSubmission(before: Job, after: Job)
  {
    && after.id == before.id
    && after.labelName == before.labelName
    && after.trainDataFilter == before.trainDataFilter
    && after.epochs == before.epochs
    && after.addTime == before.addTime
  }

  /** A job has a stored artifact exactly when it is "done". */
  predicate StoredIffDone(jobs: seq<Job>)
  {
    forall k | 0 <= k < |jobs| :: jobs[k].status == "done" <==> jobs[k].storeFilename.Some?
  }

  /** An adapter that is "done" points at the newest artifact in its history. */
  predicate PointsAtNewest(a: Adapter)
  {
    a.trainingStatus == "done" ==> |a.history| > 0 && a.history[|a.history| - 1].filename == a.currentFilename
  }

  /** Every label's adapter that is "done" points at its newest artifact. */
  predicate PublishedIsNewest(labels: map<string, Label>)
  {
    forall n | n in labels :: PointsAtNewest(labels[n].adapter)
  }

  /** How the handling of the selected job ended: its artifact was published,
      or an error escaped with the given traceback. */
  datatype JobOutcome = Published | Crashed(trace: string)

  /** The body of the `while True` loop in `main` once job k has been
      selected, with `waiting` other jobs in the queue: select its rows and
      build the dataset, then train it. An error before training is logged
      once to both logs and ends the handling. Returns what the epochs wrote
      to the job log. */
  method HandleJob(db: Database, ctx: Context, k: nat, waiting: nat, dateStamp: string, now: Time)
    returns (outcome: JobOutcome, log: seq<LogEntry>)
    requires ctx.batchSize > 0
    requires k < |db.jobs| && Queued(db.jobs[k].status)
    modifies db
    ensures db.texts == old(db.texts) && db.textsModified == old(db.textsModified)
    ensures db.restartRequired == old(db.restartRequired)
    ensures JobHandled(old(db.jobs), old(db.labels), old(db.trainerLog), old(db.texts),
                       db.jobs, db.labels, db.trainerLog, ctx, k, waiting, dateStamp, now, outcome, log)
    ensures StoredIffDone(old(db.jobs)) ==> StoredIffDone(db.jobs)
    ensures PublishedIsNewest(old(db.labels)) ==> PublishedIsNewest(db.labels)
  {
    QueuedStatuses();
    ghost var jobs0 := db.jobs;
    var job := db.jobs[k];
    var built := ctx.build(TargetRows(db.texts, ctx, job), job.labelName);
    if built.None? {
      var trace := ctx.traceOf(DatasetFailed);
      LogBoth(db, k, [Trace(trace)]);
      KeptStoredIffDone(jobs0, k, db.jobs[k]);
      return Crashed(trace), [];
    }
    var started := Started(job.labelName, ctx.batchSize, job.epochs, waiting);
    if job.labelName !in db.labels {
      var trace := ctx.traceOf(LabelMissing);
      LogBoth(db, k, [started, Trace(trace)]);
      KeptStoredIffDone(jobs0, k, db.jobs[k]);
      return Crashed(trace), [];
    }
    ghost var labels0 := db.labels;
    ghost var trainerLog0 := db.trainerLog;
    outcome, log := TrainJob(db, ctx, k, built.value, waiting, dateStamp, now);
    TrainedAsFacts(job, labels0, trainerLog0, db.jobs[k], db.labels, db.trainerLog, ctx, built.value,
      waiting, ArtifactName(job.labelName, job.epochs, dateStamp), now, outcome, log);
    KeptStoredIffDone(jobs0, k, db.jobs[k]);
    if PublishedIsNewest(labels0) {
      LabelUpdateKeepsNewest(labels0, job.labelName, db.labels[job.labelName]);
    }
  }

  /** The new jobs, label map and trainer log once queued job k has been
      handled: only job k changed, as `HandledAs` says; it keeps its
      submission fields; when published it is "done" with its artifact, and
      when the handling crashed its artifact is unchanged and its status is
      the old one or "training". */
  ghost predicate JobHandled(
    jobs: seq<Job>, labels: map<string, Label>, trainerLog: seq<LogEntry>, texts: seq<LabeledText>,
    jobs': seq<Job>, labels': map<string, Label>, trainerLog': seq<LogEntry>,
    ctx: Context, k: nat, waiting: nat, dateStamp: string, now: Time, outcome: JobOutcome, log: seq<LogEntry>)
    requires ctx.batchSize > 0
  {
    && k < |jobs| && |jobs'| == |jobs| && jobs' == jobs[k := jobs'[k]]
    && HandledAs(jobs[k], labels, trainerLog, texts, jobs'[k], labels', trainerLog',
                 ctx, waiting, dateStamp, now, outcome, log)
    && SameSubmission(jobs[k], jobs'[k])
    && (outcome.Published? ==> jobs'[k].status == "done" && jobs'[k].storeFilename.Some?)
    && (outcome.Crashed? ==>
          && jobs'[k].storeFilename == jobs[k].storeFilename
          && (jobs'[k].status == jobs[k].status || jobs'[k].status == "training"))
  }

  /** The new job record, label map and trainer log once `job` has been
      handled against the labelled texts `texts`: when no dataset can be built
      the traceback is logged once to both logs; when the label is missing the
      start message and the traceback are; otherwise the job was trained as
      `TrainedAs` says. */
  ghost predicate HandledAs(
    job: Job, labels: map<string, Label>, trainerLog: seq<LogEntry>, texts: seq<LabeledText>,
    job': Job, labels': map<string, Label>, trainerLog': seq<LogEntry>,
    ctx: Context, waiting: nat, dateStamp: string, now: Time,
    outcome: JobOutcome, log: seq<LogEntry>)
    requires ctx.batchSize > 0
  {
    var dataset := ctx.build(TargetRows(texts, ctx, job), job.labelName);
    var started := Started(job.labelName, ctx.batchSize, job.epochs, waiting);
    if dataset.None? then
      && outcome == Crashed(ctx.traceOf(DatasetFailed)) && log == []
      && job' == job.(logs := job.logs + [Trace(outcome.trace)])
      && labels' == labels
      && trainerLog' == trainerLog + [Trace(outcome.trace)]
    else if job.labelName !in labels then
      && outcome == Crashed(ctx.traceOf(LabelMissing)) && log == []
      && job' == job.(logs := job.logs + [started, Trace(outcome.trace)])
      && labels' == labels
      && trainerLog' == trainerLog + [started, Trace(outcome.trace)]
    else
      TrainedAs(job, labels, trainerLog, job', labels', trainerLog',
                ctx, dataset.value, waiting, ArtifactName(job.labelName, job.epochs, dateStamp), now, outcome, log)
  }

  /** The new job record, label map and trainer log once training of `job`
      has run: the job carries the dataset's size and positive label, the
      snapshot of its label and the start message followed by the epochs' log.
      On success the epochs logged their progress rounds, the job is "done"
      with its artifact, and the label's adapter publishes the artifact with
      one more history entry. On failure the traceback ends both logs twice
      (inner and outer handler), and job and label stay "training". */
  ghost predicate TrainedAs(
    job: Job, labels: map<string, Label>, trainerLog: seq<LogEntry>,
    job': Job, labels': map<string, Label>, trainerLog': seq<LogEntry>,
    ctx: Context, trainset: Dataset, waiting: nat, name: string, now: Time,
    outcome: JobOutcome, log: seq<LogEntry>)
    requires job.labelName in labels && ctx.batchSize > 0
  {
    var defined := labels[job.labelName];
    var started := Started(job.labelName, ctx.batchSize, job.epochs, waiting);
    var prepared := job.(status := "training", trainDataCount := Some(|trainset.samples|),
      positiveLabel := Some(trainset.positiveLabel), snapshot := Some(SnapshotOf(defined)),
      logs := job.logs + [started] + log);
    match outcome
    case Published =>
      && ProgressOf(log) == ProgressRounds(|Batches(trainset.samples, ctx.batchSize)|, job.epochs)
      && job' == prepared.(status := "done", storeFilename := Some(name))
      && labels' == labels[job.labelName := defined.(adapter := Adapter(
           name, "done", defined.adapter.history + [HistoryEntry(name, now, job.id)], now))]
      && trainerLog' == trainerLog + [started]
    case Crashed(trace) =>
      && job' == prepared.(logs := prepared.logs + [Trace(trace), Trace(trace)])
      && labels' == labels[job.labelName := defined.(adapter := defined.adapter.(trainingStatus := "training"))]
      && trainerLog' == trainerLog + [started, Trace(trace), Trace(trace)]
  }

  /** The part of `HandleJob` once the dataset is built and the label found:
      log the start, mark label and job as training, run the epochs, then
      either publish the artifact or log the traceback. */
  method TrainJob(db: Database, ctx: Context, k: nat, trainset: Dataset, waiting: nat, dateStamp: string, now: Time)
    returns (outcome: JobOutcome, log: seq<LogEntry>)
    requires ctx.batchSize > 0
    requires k < |db.jobs| && db.jobs[k].labelName in db.labels
    modifies db
    ensures db.texts == old(db.texts) && db.textsModified == old(db.textsModified)
    ensures db.restartRequired == old(db.restartRequired)
    ensures |db.jobs| == |old(db.jobs)| && db.jobs == old(db.jobs)[k := db.jobs[k]]
    ensures TrainedAs(old(db.jobs)[k], old(db.labels), old(db.trainerLog), db.jobs[k], db.labels, db.trainerLog,
                      ctx, trainset, waiting, ArtifactName(old(db.jobs)[k].labelName, old(db.jobs)[k].epochs, dateStamp),
                      now, outcome, log)
  {
    var job := db.jobs[k];
    var defined := db.labels[job.labelName];
    var started := Started(job.labelName, ctx.batchSize, job.epochs, waiting);
    db.trainerLog := db.trainerLog + [started];
    db.labels := db.labels[job.labelName := defined.(adapter := defined.adapter.(trainingStatus := "training"))];
    var prepared := job.(status := "training", trainDataCount := Some(|trainset.samples|),
      positiveLabel := Some(trainset.positiveLabel), snapshot := Some(SnapshotOf(defined)),
      logs := job.logs + [started]);
    db.jobs := db.jobs[k := prepared];

    var failure;
    log, failure := TrainEpochs(trainset.samples, ctx.batchSize, job.epochs, job.labelName, trainset.labelMap, ctx.attempt);
    prepared := prepared.(logs := prepared.logs + log);
    if failure.Some? {
      var trace := ctx.traceOf(TrainingFailed(failure.value));
      db.trainerLog := db.trainerLog + [Trace(trace), Trace(trace)];
      db.jobs := db.jobs[k := prepared.(logs := prepared.logs + [Trace(trace), Trace(trace)])];
      return Crashed(trace), log;
    }

    var name := ArtifactName(job.labelName, job.epochs, dateStamp);
    db.jobs := db.jobs[k := prepared.(status := "done", storeFilename := Some(name))];
    db.labels := db.labels[job.labelName := defined.(adapter := Adapter(
      name, "done", defined.adapter.history + [HistoryEntry(name, now, job.id)], now))];
    return Published, log;
  }

  /** What `TrainedAs` implies for the store's invariants: the submission
      fields are kept, the job is "done" exactly when published and then has
      its artifact, and only the job's label is rewritten, publishing its
      newest history entry when "done". */
  lemma TrainedAsFacts(
    job: Job, labels: map<string, Label>, trainerLog: seq<LogEntry>,
    job': Job, labels': map<string, Label>, trainerLog': seq<LogEntry>,
    ctx: Context, trainset: Dataset, waiting: nat, name: string, now: Time,
    outcome: JobOutcome, log: seq<LogEntry>)
    requires job.labelName in labels && ctx.batchSize > 0
    requires TrainedAs(job, labels, trainerLog, job', labels', trainerLog', ctx, trainset, waiting, name, now, outcome, log)
    ensures SameSubmission(job, job')
    ensures job'.status == "done" <==> outcome.Published?
    ensures job'.storeFilename == if outcome.Published? then Some(name) else job.storeFilename
    ensures job.labelName in labels' && labels' == labels[job.labelName := labels'[job.labelName]]
    ensures PointsAtNewest(labels'[job.labelName].adapter)
  {
  }

  /** `trainer_log` and `queue_task_log` of the same messages: appended to the
      trainer log and to job k's log. */
  method LogBoth(db: Database, k: nat, entries: seq<LogEntry>)
    requires k < |db.jobs|
    modifies db
    ensures db.trainerLog == old(db.trainerLog) + entries
    ensures db.jobs == old(db.jobs)[k := old(db.jobs)[k].(logs := old(db.jobs)[k].logs + entries)]
    ensures db.labels == old(db.labels) && db.texts == old(db.texts)
    ensures db.textsModified == old(db.textsModified) && db.restartRequired == old(db.restartRequired)
  {
    db.trainerLog := db.trainerLog + entries;
    db.jobs := db.jobs[k := db.jobs[k].(logs := db.jobs[k].logs + entries)];
  }

  /** Rewriting one job keeps `StoredIffDone` when the new record keeps it. */
  lemma KeepStoredIffDone(jobs: seq<Job>, k: nat, updated: Job)
    requires k < |jobs| && StoredIffDone(jobs)
    requires updated.status == "done" <==> updated.storeFilename.Some?
    ensures StoredIffDone(jobs[k := updated])
  {
  }

  /** Handling a queued job, which has no artifact yet, keeps `StoredIffDone`
      when the new record has an artifact only if it is "done" and is "done"
      only with one. */
  lemma KeptStoredIffDone(jobs: seq<Job>, k: nat, updated: Job)
    requires k < |jobs| && Queued(jobs[k].status)
    requires updated.status == "done" ==> updated.storeFilename.Some?
    requires updated.status != "done" ==> updated.storeFilename == jobs[k].storeFilename
    ensures StoredIffDone(jobs) ==> StoredIffDone(jobs[k := updated])
  {
    QueuedStatuses();
    if StoredIffDone(jobs) {
      assert jobs[k].storeFilename.None?;
      KeepStoredIffDone(jobs, k, updated);
    }
  }

  /** Rewriting one label keeps `PublishedIsNewest` when the new record keeps it. */
  lemma LabelUpdateKeepsNewest(labels: map<string, Label>, name: string, updated: Label)
    requires PublishedIsNewest(labels)
    requires PointsAtNewest(updated.adapter)
    ensures PublishedIsNewest(labels[name := updated])
  {
  }

  /** How one pass of the `while True` loop ended: the queue was empty, job
      `index` was published, or an error escaped while it was handled. */
  datatype Iteration = QueueEmpty | Trained(index: nat) | Aborted(index: nat, trace: string)

  /** The outcome of handling the job of a pass that selected one. */
  function OutcomeOf(it: Iteration): JobOutcome
    requires !it.QueueEmpty?
  {
    if it.Trained? then Published else Crashed(it.trace)
  }

  /** One pass of the `while True` loop: select the oldest queued job and
      handle it. The job keeps its submission fields and is "done" exactly
      when it was published; the store's invariants are kept. */
  method Iterate(db: Database, ctx: Context, dateStamp: string, now: Time) returns (it: Iteration, ghost log: seq<LogEntry>)
    requires ctx.batchSize > 0
    modifies db
    ensures it.QueueEmpty? <==> Select(old(db.jobs)).None?
    ensures it.QueueEmpty? ==>
      && db.jobs == old(db.jobs) && db.labels == old(db.labels) && db.texts == old(db.texts)
      && db.trainerLog == old(db.trainerLog)
      && db.textsModified == old(db.textsModified) && db.restartRequired == old(db.restartRequired)
    ensures db.texts == old(db.texts)
      && db.textsModified == old(db.textsModified) && db.restartRequired == old(db.restartRequired)
    ensures |db.jobs| == |old(db.jobs)|
    ensures !it.QueueEmpty? ==>
      IteratedAs(old(db.jobs), old(db.labels), old(db.trainerLog), old(db.texts),
                 db.jobs, db.labels, db.trainerLog, ctx, dateStamp, now, it, log)
    ensures StoredIffDone(old(db.jobs)) ==> StoredIffDone(db.jobs)
    ensures PublishedIsNewest(old(db.labels)) ==> PublishedIsNewest(db.labels)
  {
    var queue := QueueOf(db.jobs);
    if |queue| == 0 {
      return QueueEmpty, [];
    }
    var k := SortByAddTime(queue)[0].index;
    SelectIsSortHead(db.jobs);
    QueuedStatuses();
    ghost var jobs0, labels0, trainerLog0 := db.jobs, db.labels, db.trainerLog;
    var outcome;
    outcome, log := HandleJob(db, ctx, k, |queue| - 1, dateStamp, now);
    it := if outcome.Published? then Trained(k) else Aborted(k, outcome.trace);
    HandledIsIterated(jobs0, labels0, trainerLog0, db.texts, db.jobs, db.labels, db.trainerLog,
      ctx, dateStamp, now, k, outcome, it, log);
  }

  /** The new jobs, label map and trainer log once one pass has handled the
      oldest queued job: job `it.index` was the one selected, only it changed,
      it keeps its submission fields, it is "done" exactly when published, and
      it was handled as `HandledAs` says, with the rest of the queue waiting. */
  ghost predicate IteratedAs(
    jobs: seq<Job>, labels: map<string, Label>, trainerLog: seq<LogEntry>, texts: seq<LabeledText>,
    jobs': seq<Job>, labels': map<string, Label>, trainerLog': seq<LogEntry>,
    ctx: Context, dateStamp: string, now: Time, it: Iteration, log: seq<LogEntry>)
    requires ctx.batchSize > 0 && !it.QueueEmpty?
  {
    && Select(jobs) == Some(it.index)
    && it.index < |jobs| && |jobs'| == |jobs| && jobs' == jobs[it.index := jobs'[it.index]]
    && SameSubmission(jobs[it.index], jobs'[it.index])
    && (jobs'[it.index].status == "done" <==> it.Trained?)
    && HandledAs(jobs[it.index], labels, trainerLog, texts, jobs'[it.index], labels', trainerLog',
                 ctx, |QueueOf(jobs)| - 1, dateStamp, now, OutcomeOf(it), log)
  }

  /** Handling the selected queued job k is the pass `it` reports. */
  lemma HandledIsIterated(
    jobs: seq<Job>, labels: map<string, Label>, trainerLog: seq<LogEntry>, texts: seq<LabeledText>,
    jobs': seq<Job>, labels': map<string, Label>, trainerLog': seq<LogEntry>,
    ctx: Context, dateStamp: string, now: Time, k: nat, outcome: JobOutcome, it: Iteration, log: seq<LogEntry>)
    requires ctx.batchSize > 0
    requires Select(jobs) == Some(k) && k < |jobs| && Queued(jobs[k].status)
    requires JobHandled(jobs, labels, trainerLog, texts, jobs', labels', trainerLog',
                        ctx, k, |QueueOf(jobs)| - 1, dateStamp, now, outcome, log)
    requires it == if outcome.Published? then Trained(k) else Aborted(k, outcome.trace)
    ensures !it.QueueEmpty?
    ensures IteratedAs(jobs, labels, trainerLog, texts, jobs', labels', trainerLog', ctx, dateStamp, now, it, log)
  {
    QueuedStatuses();
    assert OutcomeOf(it) == outcome;
  }

  /** How `main` ends: `sys.exit(0)` on an empty queue, or the traceback of
      the error it re-raises. */
  datatype Exit = ExitedCleanly | ErrorRaised(trace: string)

  /** What the loop of `RunScheduler` keeps about the jobs trained so far,
      against the jobs as they were when it started: every job keeps its
      submission fields; a job is queued exactly when it was queued at the
      start and has not been trained; trained jobs were queued at the start
      and are now "done"; no job is trained twice; they were trained in
      ascending `add_time` order, and none is younger than a job still queued. */
  ghost predicate TrainedInOrder(jobs0: seq<Job>, jobs: seq<Job>, trained: seq<nat>)
  {
    && |jobs| == |jobs0|
    && (forall j | 0 <= j < |jobs0| :: SameSubmission(jobs0[j], jobs[j]))
    && (forall j | 0 <= j < |jobs0| :: Queued(jobs[j].status) <==> Queued(jobs0[j].status) && j !in trained)
    && (forall a | 0 <= a < |trained| ::
          trained[a] < |jobs0| && Queued(jobs0[trained[a]].status) && jobs[trained[a]].status == "done")
    && (forall a, b | 0 <= a < b < |trained| ::
          trained[a] != trained[b] && jobs0[trained[a]].addTime <= jobs0[trained[b]].addTime)
    && (forall a, j | 0 <= a < |trained| && 0 <= j < |jobs0| && Queued(jobs[j].status) ::
          jobs0[trained[a]].addTime <= jobs0[j].addTime)
  }

  /** `main`'s `while True` loop, with pass r reading its date stamp and clock
      from `stamps(r)` and `clock(r)`. Jobs are trained one at a time, oldest
      first: every job in `trained` was queued at the start and is now "done",
      none twice, in ascending `add_time` order; a clean exit leaves the
      queue empty, having trained every job queued at the start. */
  method RunScheduler(db: Database, ctx: Context, stamps: nat -> string, clock: nat -> Time)
    returns (exit: Exit, trained: seq<nat>)
    requires ctx.batchSize > 0
    modifies db
    ensures exit.ExitedCleanly? ==> Select(db.jobs).None?
    ensures |db.jobs| == |old(db.jobs)|
    ensures forall a | 0 <= a < |trained| ::
      trained[a] < |db.jobs| && Queued(old(db.jobs)[trained[a]].status) && db.jobs[trained[a]].status == "done"
    ensures forall a, b | 0 <= a < b < |trained| ::
      trained[a] != trained[b] && old(db.jobs)[trained[a]].addTime <= old(db.jobs)[trained[b]].addTime
    ensures exit.ExitedCleanly? ==>
      forall j | 0 <= j < |db.jobs| && Queued(old(db.jobs)[j].status) :: j in trained
    ensures StoredIffDone(old(db.jobs)) ==> StoredIffDone(db.jobs)
    ensures PublishedIsNewest(old(db.labels)) ==> PublishedIsNewest(db.labels)
  {
    ghost var jobs0 := db.jobs;
    trained := [];
    var round: nat := 0;
    while true
      invariant TrainedInOrder(jobs0, db.jobs, trained)
      invariant StoredIffDone(jobs0) ==> StoredIffDone(db.jobs)
      invariant PublishedIsNewest(old(db.labels)) ==> PublishedIsNewest(db.labels)
      decreases |QueueOf(db.jobs)|
    {
      var it := Pass(db, ctx, stamps(round), clock(round), jobs0, trained);
      if it.QueueEmpty? {
        return ExitedCleanly, trained;
      } else if it.Aborted? {
        return ErrorRaised(it.trace), trained;
      }
      trained := trained + [it.index];
      round := round + 1;
    }
  }

  /** One pass of `main`'s loop, as `RunScheduler` sees it: the pass keeps the
      loop invariant, shortens the queue when it trains a job, leaves the
      trained jobs "done" when it aborts, and finds the queue empty only once
      every job queued at the start has been trained. */
  method Pass(db: Database, ctx: Context, dateStamp: string, now: Time, ghost jobs0: seq<Job>, ghost trained: seq<nat>)
    returns (it: Iteration)
    requires ctx.batchSize > 0
    requires TrainedInOrder(jobs0, db.jobs, trained)
    modifies db
    ensures |db.jobs| == |jobs0|
    ensures StoredIffDone(old(db.jobs)) ==> StoredIffDone(db.jobs)
    ensures PublishedIsNewest(old(db.labels)) ==> PublishedIsNewest(db.labels)
    ensures it.QueueEmpty? ==>
      && Select(db.jobs).None?
      && TrainedInOrder(jobs0, db.jobs, trained)
      && forall j | 0 <= j < |jobs0| && Queued(jobs0[j].status) :: j in trained
    ensures it.Aborted? ==>
      forall a | 0 <= a < |trained| :: trained[a] < |db.jobs| && db.jobs[trained[a]].status == "done"
    ensures it.Trained? ==>
      && TrainedInOrder(jobs0, db.jobs, trained + [it.index])
      && |QueueOf(db.jobs)| < |QueueOf(old(db.jobs))|
  {
    ghost var before := db.jobs;
    SelectOldestQueued(before);
    ghost var handled;
    it, handled := Iterate(db, ctx, dateStamp, now);
    if it.QueueEmpty? {
      EmptyQueueTrainedAll(jobs0, db.jobs, trained);
    } else if it.Aborted? {
      AbortedKeepsTrained(jobs0, before, db.jobs, trained, it.index);
    } else {
      var k := it.index;
      QueueShrinks(before, k, db.jobs[k]);
      TrainedNext(jobs0, before, db.jobs, trained, k);
    }
  }

  /** When nothing is queued any more, every job queued at the start has been trained. */
  lemma EmptyQueueTrainedAll(jobs0: seq<Job>, jobs: seq<Job>, trained: seq<nat>)
    requires TrainedInOrder(jobs0, jobs, trained)
    requires forall k | 0 <= k < |jobs| :: !Queued(jobs[k].status)
    ensures forall j | 0 <= j < |jobs0| && Queued(jobs0[j].status) :: j in trained
  {
  }

  /** An aborted pass leaves the jobs trained so far "done". */
  lemma AbortedKeepsTrained(jobs0: seq<Job>, before: seq<Job>, after: seq<Job>, trained: seq<nat>, k: nat)
    requires TrainedInOrder(jobs0, before, trained)
    requires k < |before| && |after| == |before| && Queued(before[k].status) && after == before[k := after[k]]
    ensures forall a | 0 <= a < |trained| :: trained[a] < |after| && after[trained[a]].status == "done"
  {
    QueuedStatuses();
    forall a | 0 <= a < |trained| ensures trained[a] < |after| && after[trained[a]].status == "done" {
      assert before[trained[a]].status == "done";
    }
  }

  /** The loop invariant of `RunScheduler` survives training the selected job. */
  lemma TrainedNext(jobs0: seq<Job>, before: seq<Job>, after: seq<Job>, trained: seq<nat>, k: nat)
    requires TrainedInOrder(jobs0, before, trained)
    requires k < |before| && Queued(before[k].status)
    requires forall j | 0 <= j < |before| && Queued(before[j].status) :: before[k].addTime <= before[j].addTime
    requires |after| == |before| && after == before[k := after[k]]
    requires after[k].status == "done" && SameSubmission(before[k], after[k])
    ensures TrainedInOrder(jobs0, after, trained + [k])
  {
    QueuedStatuses();
    var t := trained + [k];
    assert k !in trained;
    forall a | 0 <= a < |t| ensures t[a] < |jobs0| && Queued(jobs0[t[a]].status) && after[t[a]].status == "done" {
      if a < |trained| {
        assert t[a] == trained[a];
        assert t[a] != k;
      }
    }
  }
}
