/** The training loop of one job: the `DataLoader` that cuts the dataset into
    fixed-size batches and collates each one, and the epoch and batch loops
    that train every batch and log progress on every tenth round. */
module Epochs {
  import opened Common
  import opened Collate
  import opened AutoAdjust
  import opened Documents

  /** Row k of each of the four collated grids. */
  datatype BatchRow = BatchRow(tokens: seq<int>, segments: seq<int>, mask: seq<int>, labels: Option<seq<int>>)

  /** Why the training loop stopped: the label has no index in the dataset's
      label map, a batch could not be collated, or a pass raised. */
  datatype TrainFailure =
    | MissingLabelIndex
    | CollateFailed(error: CollateError)
    | PassFailed(message: string)

  /** The `DataLoader` without shuffling: consecutive batches of `size` items,
      the last one possibly shorter. */
  function Batches<T>(items: seq<T>, size: nat): (r: seq<seq<T>>)
    requires size > 0
    ensures Flatten(r) == items
    ensures forall i | 0 <= i < |r| :: 0 < |r[i]| <= size
    ensures forall i | 0 <= i < |r| - 1 :: |r[i]| == size
    decreases |items|
  {
    if |items| == 0 then []
    else if |items| <= size then [items]
    else
      var rest := Batches(items[size..], size);
      assert items[..size] + items[size..] == items;
      [items[..size]] + rest
  }

  /** There are ceil(N / size) batches: N items need more than `size` times
      one batch fewer, and fit in `size` times as many. */
  lemma {:induction false} BatchCount<T>(items: seq<T>, size: nat)
    requires size > 0
    ensures var n := |Batches(items, size)|;
      (n == 0 <==> |items| == 0) && (n > 0 ==> (n - 1) * size < |items| <= n * size)
    decreases |items|
  {
    if |items| > size {
      var rest := Batches(items[size..], size);
      BatchCount(items[size..], size);
      assert |Batches(items, size)| == |rest| + 1;
      MulNeighbours(|rest|, size);
    }
  }

  lemma MulNeighbours(n: nat, size: nat)
    requires n > 0
    ensures (n + 1) * size == n * size + size
    ensures (n - 1) * size == n * size - size
  {
  }

  /** The rows of a collated batch, as the worker slices them. */
  function RowsOf(b: MiniBatch): (rows: seq<BatchRow>)
    requires |b.segments| == |b.tokens| && |b.masks| == |b.tokens|
    requires b.labels.Some? ==> |b.labels.value| == |b.tokens|
    ensures |rows| == |b.tokens|
  {
    seq(|b.tokens|, k requires 0 <= k < |b.tokens| =>
      BatchRow(b.tokens[k], b.segments[k], b.masks[k],
               if b.labels.Some? then Some(b.labels.value[k]) else None))
  }

  /** The (epoch, round) of every progress message of epoch `epoch` over its
      first `rounds` batches: rounds 0, 10, 20, ... */
  function EpochRounds(epoch: nat, rounds: nat): seq<(nat, nat)>
  {
    if rounds == 0 then []
    else EpochRounds(epoch, rounds - 1) + (if (rounds - 1) % 10 == 0 then [(epoch, rounds - 1)] else [])
  }

  /** The (epoch, round) of every progress message of epochs 1..epochs over
      `batches` batches each. */
  function ProgressRounds(batches: nat, epochs: nat): seq<(nat, nat)>
  {
    if epochs == 0 then [] else ProgressRounds(batches, epochs - 1) + EpochRounds(epochs, batches)
  }

  /** The (epoch, round) of the progress messages in a log, in order. */
  function ProgressOf(log: seq<LogEntry>): seq<(nat, nat)>
  {
    if log == [] then []
    else (if log[0].Progress? then [(log[0].epoch, log[0].round)] else []) + ProgressOf(log[1..])
  }

  lemma {:induction false} ProgressOfAppend(a: seq<LogEntry>, b: seq<LogEntry>)
    ensures ProgressOf(a + b) == ProgressOf(a) + ProgressOf(b)
  {
    if a == [] {
      assert a + b == b;
    } else {
      assert (a + b)[0] == a[0];
      assert (a + b)[1..] == a[1..] + b;
      ProgressOfAppend(a[1..], b);
    }
  }

  /** The out-of-memory messages a worker run writes to the job log. */
  function OomEntries(rows: seq<nat>): (log: seq<LogEntry>)
    ensures |log| == |rows|
    ensures forall i | 0 <= i < |rows| :: log[i] == OutOfMemory(rows[i])
  {
    seq(|rows|, i requires 0 <= i < |rows| => OutOfMemory(rows[i]))
  }

  lemma {:induction false} NoProgressInOomEntries(rows: seq<nat>)
    ensures ProgressOf(OomEntries(rows)) == []
  {
    if rows != [] {
      assert OomEntries(rows)[1..] == OomEntries(rows[1..]);
      NoProgressInOomEntries(rows[1..]);
    }
  }

  /** Each epoch over N batches logs ceil(N / 10) progress messages. */
  lemma {:induction false} EpochRoundsCount(epoch: nat, rounds: nat)
    ensures |EpochRounds(epoch, rounds)| == (rounds + 9) / 10
  {
    if rounds > 0 {
      EpochRoundsCount(epoch, rounds - 1);
    }
  }

  /** A run of E epochs over N batches logs E * ceil(N / 10) progress messages,
      epoch by epoch, each at a round that is a multiple of 10. */
  lemma {:induction false} ProgressRoundsShape(batches: nat, epochs: nat)
    ensures |ProgressRounds(batches, epochs)| == epochs * ((batches + 9) / 10)
    ensures forall i | 0 <= i < |ProgressRounds(batches, epochs)| ::
      var (e, r) := ProgressRounds(batches, epochs)[i];
      1 <= e <= epochs && r < batches && r % 10 == 0
  {
    if epochs > 0 {
      ProgressRoundsShape(batches, epochs - 1);
      EpochRoundsCount(epochs, batches);
      EpochRoundsShape(epochs, batches);
    }
  }

  lemma {:induction false} EpochRoundsShape(epoch: nat, rounds: nat)
    ensures forall i | 0 <= i < |EpochRounds(epoch, rounds)| ::
      EpochRounds(epoch, rounds)[i].0 == epoch &&
      EpochRounds(epoch, rounds)[i].1 < rounds &&
      EpochRounds(epoch, rounds)[i].1 % 10 == 0
  {
    if rounds > 0 {
      EpochRoundsShape(epoch, rounds - 1);
    }
  }

  /** Batch `batch` collated and was trained by the worker in the pieces
      `pieces`, which cover its rows in order, each pass succeeding, the last
      with loss `loss`. */
  ghost predicate BatchTrained(
    batch: seq<Sample>, labelIndex: nat, attempt: (nat, seq<BatchRow>) -> Attempt,
    pieces: seq<seq<BatchRow>>, loss: real)
  {
    && Collatable(batch)
    && Flatten(pieces) == RowsOf(CreateMiniBatch(batch).batch)
    && |pieces| > 0
    && (forall i | 0 <= i < |pieces| :: attempt(labelIndex, pieces[i]).Succeeded?)
    && attempt(labelIndex, pieces[|pieces| - 1]) == Succeeded(loss)
  }

  /** `loss` is the loss the worker returns for batch `batch`. */
  ghost predicate BatchLoss(batch: seq<Sample>, labelIndex: nat, attempt: (nat, seq<BatchRow>) -> Attempt, loss: real)
  {
    exists pieces :: BatchTrained(batch, labelIndex, attempt, pieces, loss)
  }

  /** Every progress message of `log` belongs to an epoch in `first..last`,
      names a round of `batches` and carries the loss of that round's batch. */
  ghost predicate LossesTied(
    log: seq<LogEntry>, batches: seq<seq<Sample>>, labelIndex: nat,
    attempt: (nat, seq<BatchRow>) -> Attempt, first: nat, last: nat)
  {
    forall j | 0 <= j < |log| && log[j].Progress? ::
      && first <= log[j].epoch <= last
      && log[j].round < |batches|
      && BatchLoss(batches[log[j].round], labelIndex, attempt, log[j].loss)
  }

  /** Joining two logs whose progress messages are tied keeps them tied, over
      the union of their epoch ranges. */
  lemma LossesTiedAppend(
    a: seq<LogEntry>, b: seq<LogEntry>, batches: seq<seq<Sample>>, labelIndex: nat,
    attempt: (nat, seq<BatchRow>) -> Attempt, first: nat, middle: nat, last: nat)
    requires first <= middle <= last
    requires LossesTied(a, batches, labelIndex, attempt, first, middle)
    requires LossesTied(b, batches, labelIndex, attempt, middle, last)
    ensures LossesTied(a + b, batches, labelIndex, attempt, first, last)
  {
    forall j | 0 <= j < |a + b| && (a + b)[j].Progress?
      ensures && first <= (a + b)[j].epoch <= last
              && (a + b)[j].round < |batches|
              && BatchLoss(batches[(a + b)[j].round], labelIndex, attempt, (a + b)[j].loss)
    {
      if j < |a| {
        assert (a + b)[j] == a[j];
      } else {
        assert (a + b)[j] == b[j - |a|];
      }
    }
  }

  /** One round of the batch loop: collate the batch, then train it with the
      divide-and-conquer worker. Returns the out-of-memory messages the worker
      logged, each with the row count of the piece that ran out, and the loss
      of the batch or the failure; `pieces` are the pieces the worker trained. */
  method TrainBatch(batch: seq<Sample>, labelIndex: nat, attempt: (nat, seq<BatchRow>) -> Attempt)
    returns (log: seq<LogEntry>, loss: real, failure: Option<TrainFailure>, ghost pieces: seq<seq<BatchRow>>)
    ensures ProgressOf(log) == []
    ensures forall j | 0 <= j < |log| :: log[j].OutOfMemory? && log[j].rows <= |batch|
    ensures failure != Some(MissingLabelIndex)
    ensures !Collatable(batch) <==> failure.Some? && failure.value.CollateFailed?
    ensures !Collatable(batch) ==> log == []
    ensures failure.None? ==> BatchTrained(batch, labelIndex, attempt, pieces, loss)
    ensures failure.None? ==> forall j | 0 <= j < |log| :: log[j].rows >= 2
  {
    log := [];
    loss := 0.0;
    pieces := [];
    var collated := CreateMiniBatch(batch);
    if collated.Failed? {
      return log, loss, Some(CollateFailed(collated.error)), pieces;
    }
    var rows := RowsOf(collated.batch);
    var out := TrainSplitting(rows, piece => attempt(labelIndex, piece));
    NoProgressInOomEntries(out.oomLog);
    log := OomEntries(out.oomLog);
    pieces := out.trained;
    match out {
      case Completed(l, trained, _) =>
        loss, failure := l, None;
      case Failed(message, _, _, _) =>
        failure := Some(PassFailed(message));
    }
  }

  /** Round i of the batch loop: train batch i, then log a progress message
      with its loss when i is a multiple of 10. */
  method TrainRound(batches: seq<seq<Sample>>, i: nat, epoch: nat, labelIndex: nat, attempt: (nat, seq<BatchRow>) -> Attempt)
    returns (log: seq<LogEntry>, failure: Option<TrainFailure>)
    requires i < |batches|
    ensures ProgressOf(log) == if failure.None? && i % 10 == 0 then [(epoch, i)] else []
    ensures LossesTied(log, batches, labelIndex, attempt, epoch, epoch)
    ensures failure != Some(MissingLabelIndex)
  {
    var oomLog, loss, batchFailure, pieces := TrainBatch(batches[i], labelIndex, attempt);
    if batchFailure.Some? {
      assert LossesTied(oomLog, batches, labelIndex, attempt, epoch, epoch);
      return oomLog, batchFailure;
    }
    assert BatchLoss(batches[i], labelIndex, attempt, loss) by {
      assert BatchTrained(batches[i], labelIndex, attempt, pieces, loss);
    }
    RoundTied(oomLog, batches, labelIndex, attempt, epoch, i, loss);
    RoundProgress(oomLog, epoch, i, loss);
    log, failure := oomLog + (if i % 10 == 0 then [Progress(epoch, i, loss)] else []), None;
  }

  /** One epoch: the batch loop `for i, data in enumerate(trainloader)`, with
      a progress message on every round that is a multiple of 10, carrying the
      loss of that round's batch. */
  method TrainEpoch(batches: seq<seq<Sample>>, epoch: nat, labelIndex: nat, attempt: (nat, seq<BatchRow>) -> Attempt)
    returns (log: seq<LogEntry>, failure: Option<TrainFailure>)
    ensures failure.None? ==> ProgressOf(log) == EpochRounds(epoch, |batches|)
    ensures LossesTied(log, batches, labelIndex, attempt, epoch, epoch)
    ensures failure != Some(MissingLabelIndex)
  {
    log := [];
    failure := None;
    var i := 0;
    while i < |batches|
      invariant 0 <= i <= |batches|
      invariant ProgressOf(log) == EpochRounds(epoch, i)
      invariant LossesTied(log, batches, labelIndex, attempt, epoch, epoch)
    {
      var roundLog, roundFailure := TrainRound(batches, i, epoch, labelIndex, attempt);
      LossesTiedAppend(log, roundLog, batches, labelIndex, attempt, epoch, epoch, epoch);
      if roundFailure.Some? {
        return log + roundLog, roundFailure;
      }
      ProgressOfAppend(log, roundLog);
      log := log + roundLog;
      i := i + 1;
    }
  }

  /** Round i keeps the progress losses tied: its out-of-memory messages carry
      no loss, and its progress message, written only when the batch trained,
      carries the loss of batch i. */
  lemma RoundTied(
    oomLog: seq<LogEntry>, batches: seq<seq<Sample>>, labelIndex: nat,
    attempt: (nat, seq<BatchRow>) -> Attempt, epoch: nat, i: nat, loss: real)
    requires forall j | 0 <= j < |oomLog| :: oomLog[j].OutOfMemory?
    requires i < |batches| && BatchLoss(batches[i], labelIndex, attempt, loss)
    ensures LossesTied(oomLog + (if i % 10 == 0 then [Progress(epoch, i, loss)] else []),
                       batches, labelIndex, attempt, epoch, epoch)
  {
    var entry: seq<LogEntry> := if i % 10 == 0 then [Progress(epoch, i, loss)] else [];
    assert LossesTied(oomLog, batches, labelIndex, attempt, epoch, epoch);
    assert LossesTied(entry, batches, labelIndex, attempt, epoch, epoch);
    LossesTiedAppend(oomLog, entry, batches, labelIndex, attempt, epoch, epoch, epoch);
  }

  /** The progress of round i: one message when i is a multiple of 10. */
  lemma RoundProgress(oomLog: seq<LogEntry>, epoch: nat, i: nat, loss: real)
    requires ProgressOf(oomLog) == []
    ensures ProgressOf(oomLog + (if i % 10 == 0 then [Progress(epoch, i, loss)] else [])) ==
      if i % 10 == 0 then [(epoch, i)] else []
  {
    var entry: seq<LogEntry> := if i % 10 == 0 then [Progress(epoch, i, loss)] else [];
    ProgressOfAppend(oomLog, entry);
    if i % 10 == 0 {
      assert entry[1..] == [];
    }
  }

  /** The epoch loop of one job (`for epoch in range(Epoch_Times)` with the
      epoch displayed from 1), over the batches of the `DataLoader`. Returns
      what it wrote to the job log, and the failure that stopped it, if any. On
      success the job log holds one progress message for every round that is a
      multiple of 10 of every epoch, in order; the label index is looked up at
      the start of each epoch, so a missing index only fails a run with at
      least one epoch. */
  method TrainEpochs(
    samples: seq<Sample>,
    batchSize: nat,
    epochs: nat,
    labelName: string,
    labelMap: map<string, nat>,
    attempt: (nat, seq<BatchRow>) -> Attempt)
    returns (log: seq<LogEntry>, failure: Option<TrainFailure>)
    requires batchSize > 0
    ensures failure.None? ==> ProgressOf(log) == ProgressRounds(|Batches(samples, batchSize)|, epochs)
    ensures failure.None? && epochs > 0 ==> labelName in labelMap
    ensures failure == Some(MissingLabelIndex) <==> epochs > 0 && labelName !in labelMap
    ensures labelName !in labelMap ==> log == []
    ensures labelName in labelMap ==>
      LossesTied(log, Batches(samples, batchSize), labelMap[labelName], attempt, 1, epochs)
  {
    var batches := Batches(samples, batchSize);
    log := [];
    failure := None;
    var epoch := 0;
    while epoch < epochs
      invariant 0 <= epoch <= epochs
      invariant ProgressOf(log) == ProgressRounds(|batches|, epoch)
      invariant epoch > 0 ==> labelName in labelMap
      invariant labelName !in labelMap ==> log == []
      invariant labelName in labelMap ==> LossesTied(log, batches, labelMap[labelName], attempt, 1, epoch)
    {
      epoch := epoch + 1;
      if labelName !in labelMap {
        return log, Some(MissingLabelIndex);
      }
      var epochLog, epochFailure := TrainEpoch(batches, epoch, labelMap[labelName], attempt);
      ProgressOfAppend(log, epochLog);
      LossesTiedAppend(log, epochLog, batches, labelMap[labelName], attempt, 1, epoch, epoch);
      log := log + epochLog;
      if epochFailure.Some? {
        return log, epochFailure;
      }
    }
  }
}
