/** The documents of the three collections the core reads and writes (label
    definitions, labelled sentences, training jobs), the two log sinks, and the
    store that holds them. Timestamps and Mongo object ids are opaque values. */
module Documents {
  import opened Common

  type Time = int

  /** One entry of `adapter.history`: the artifact, when it was published and by which job. */
  datatype HistoryEntry = HistoryEntry(filename: string, time: Time, trainerJobId: string)

  /** The `adapter` sub-record of a label. */
  datatype Adapter = Adapter(
    currentFilename: string,
    trainingStatus: string,
    history: seq<HistoryEntry>,
    updateTime: Time)

  datatype Label = Label(
    id: string,
    user: string,
    labelName: string,
    inherit: seq<string>,
    aliasAs: seq<string>,
    comment: string,
    tags: seq<string>,
    adapter: Adapter,
    createTime: Time)

  /** The frozen copy of a label written into a job when its training starts. */
  datatype LabelSnapshot = LabelSnapshot(
    id: string,
    user: string,
    labelName: string,
    inherit: seq<string>,
    aliasAs: seq<string>,
    comment: string,
    tags: seq<string>)

  function SnapshotOf(defined: Label): LabelSnapshot
  {
    LabelSnapshot(defined.id, defined.user, defined.labelName, defined.inherit, defined.aliasAs,
                  defined.comment, defined.tags)
  }

  /** A word of submitted text with its labels. */
  datatype Word = Word(text: string, labels: seq<string>)

  /** A sub-word token carrying its word's labels. */
  datatype TokenLabels = TokenLabels(token: string, labels: seq<string>)

  /** One stored sentence of the labelled-text collection. */
  datatype LabeledText = LabeledText(
    id: string,
    user: string,
    tags: seq<string>,
    textAndLabels: seq<Word>,
    tokenAndLabels: seq<TokenLabels>,
    timestamp: Time)

  /** A message of the trainer log or of a job's `logs`; the message texts are
      kept as their parameters. */
  datatype LogEntry =
    | Started(labelName: string, batchSize: nat, epochs: nat, waiting: nat)
    | OutOfMemory(rows: nat)
    | Progress(epoch: nat, round: nat, loss: real)
    | Trace(text: string)

  /** A stored query of the labelled-text collection, evaluated by the store. */
  type Filter = string

  datatype Job = Job(
    id: string,
    labelName: string,
    trainDataFilter: Filter,
    epochs: nat,
    status: string,
    addTime: Time,
    trainDataCount: Option<nat>,
    positiveLabel: Option<nat>,
    snapshot: Option<LabelSnapshot>,
    storeFilename: Option<string>,
    logs: seq<LogEntry>)

  /** The document store and the process-wide trainer log. Labels are keyed by
      their name; labelled texts and jobs are kept in insertion order, the order
      in which the store returns them. */
  class Database {
    var labels: map<string, Label>
    var texts: seq<LabeledText>
    var jobs: seq<Job>
    var trainerLog: seq<LogEntry>
    var textsModified: Option<Time>
    var restartRequired: bool

    constructor (labels: map<string, Label>, texts: seq<LabeledText>, jobs: seq<Job>)
      ensures this.labels == labels && this.texts == texts && this.jobs == jobs
      ensures trainerLog == [] && textsModified == None && !restartRequired
    {
      this.labels := labels;
      this.texts := texts;
      this.jobs := jobs;
      trainerLog := [];
      textsModified := None;
      restartRequired := false;
    }
  }
}
