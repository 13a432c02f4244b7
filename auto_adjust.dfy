/** `train_model_with_auto_adjust_batch`: the divide-and-conquer worker that
    retries a batch in smaller pieces after a CUDA out-of-memory error.

    The forward/backward pass is the oracle `attempt`, which either yields the
    loss or raises an error with a message. A piece is a sequence of batch rows.

    The first half of the module models the worker as written, including its two
    defects: a split emits two copies of the first floor(L/2) rows of every piece,
    and a one-row piece that runs out of memory is retried unchanged for ever.
    Because the written loop need not terminate, its model carries a `fuel`
    bound and reports `Stalled` when the bound is spent. The second half is the
    evidently intended worker, `TrainSplitting`, which the epoch loop uses. */
module AutoAdjust {
  import opened Common

  /** What one forward/backward pass does: produce a loss, or raise. */
  datatype Attempt = Succeeded(loss: real) | Raised(message: string)

  /** The worker treats an error as out-of-memory iff its message contains "CUDA". */
  predicate IsCudaError(message: string)
  {
    Contains(message, "CUDA")
  }

  /** The worker's local state: the worklist `datas`, the pieces whose backward
      pass has run (their gradients are accumulated), the last loss, and the row
      count of the head piece at each logged out-of-memory event. */
  datatype Worker<R> = Worker(
    pending: seq<seq<R>>,
    trained: seq<seq<R>>,
    lastLoss: Option<real>,
    oomLog: seq<nat>)

  /** `datas = [data]`. */
  function Start<R>(data: seq<R>): Worker<R>
  {
    Worker([data], [], None, [])
  }

  datatype StepResult<R> = Continue(next: Worker<R>) | Raise(message: string)

  /** Python's `p[:n]` for a non-negative `n`. */
  function Take<R>(p: seq<R>, n: nat): (r: seq<R>)
    ensures |r| == if n <= |p| then n else |p|
    ensures r == p[..|r|]
  {
    if n <= |p| then p[..n] else p
  }

  /** The split as written: every piece becomes two copies of its first `half` rows. */
  function DuplicateHalves<R>(pieces: seq<seq<R>>, half: nat): (r: seq<seq<R>>)
    ensures |r| == 2 * |pieces|
    ensures forall i | 0 <= i < |pieces| ::
      r[2 * i] == Take(pieces[i], half) && r[2 * i + 1] == Take(pieces[i], half)
  {
    if pieces == [] then []
    else
      var rest := DuplicateHalves(pieces[1..], half);
      var r := [Take(pieces[0], half), Take(pieces[0], half)] + rest;
      assert forall i | 1 <= i < |pieces| :: r[2 * i] == rest[2 * (i - 1)] && pieces[i] == pieces[1..][i - 1];
      r
  }

  /** One iteration of `while len(datas) != 0`: it raises exactly on an error
      of the head that is not out-of-memory; otherwise the trained pieces only
      grow, by the head when its pass succeeds, and every out-of-memory error
      logs one entry. */
  function Step<R>(w: Worker<R>, attempt: seq<R> -> Attempt): (r: StepResult<R>)
    requires |w.pending| > 0
    ensures r.Raise? <==> attempt(w.pending[0]).Raised? && !IsCudaError(attempt(w.pending[0]).message)
    ensures r.Raise? ==> r.message == attempt(w.pending[0]).message
    ensures r.Continue? ==>
      && r.next.trained == w.trained + (if attempt(w.pending[0]).Succeeded? then [w.pending[0]] else [])
      && r.next.oomLog == w.oomLog + (if attempt(w.pending[0]).Raised? then [|w.pending[0]|] else [])
  {
    var head := w.pending[0];
    match attempt(head)
    case Succeeded(loss) =>
      Continue(Worker(w.pending[1..], w.trained + [head], Some(loss), w.oomLog))
    case Raised(message) =>
      if !IsCudaError(message) then Raise(message)
      else
        var length := |head|;
        var log := w.oomLog + [length];
        if length != 1 then Continue(w.(pending := DuplicateHalves(w.pending, length / 2), oomLog := log))
        else Continue(w.(oomLog := log))
  }

  /** How the worker ends: the worklist emptied (`return loss`), an error
      that is not out-of-memory was re-raised, or the fuel ran out. */
  datatype Outcome<R> =
    | Finished(loss: Option<real>, state: Worker<R>)
    | Reraised(message: string, state: Worker<R>)
    | Stalled(state: Worker<R>)

  /** At most `fuel` iterations of the worker, starting from `w`: it finishes
      with an empty worklist, re-raises an error that is not out-of-memory, or
      stalls with work left; the pieces trained before are kept in front. */
  function Run<R>(w: Worker<R>, attempt: seq<R> -> Attempt, fuel: nat): (r: Outcome<R>)
    ensures r.Finished? ==> |r.state.pending| == 0
    ensures r.Reraised? ==> |r.state.pending| > 0 && !IsCudaError(r.message)
    ensures r.Stalled? ==> |r.state.pending| > 0
    ensures |w.trained| <= |r.state.trained| && r.state.trained[..|w.trained|] == w.trained
    decreases fuel
  {
    if |w.pending| == 0 then Finished(w.lastLoss, w)
    else if fuel == 0 then Stalled(w)
    else
      match Step(w, attempt)
      case Raise(message) => Reraised(message, w)
      case Continue(next) => Run(next, attempt, fuel - 1)
  }

  /** The worker as written, run for at most `fuel` iterations. */
  method TrainAutoAdjust<R>(data: seq<R>, attempt: seq<R> -> Attempt, fuel: nat) returns (out: Outcome<R>)
    ensures out == Run(Start(data), attempt, fuel)
  {
    var pending := [data];
    var trained: seq<seq<R>> := [];
    var lastLoss: Option<real> := None;
    var oomLog: seq<nat> := [];
    var steps := 0;
    while |pending| != 0 && steps < fuel
      invariant steps <= fuel
      invariant Run(Worker(pending, trained, lastLoss, oomLog), attempt, fuel - steps) == Run(Start(data), attempt, fuel)
      decreases fuel - steps
    {
      var head := pending[0];
      match attempt(head) {
      case Succeeded(loss) =>
        lastLoss := Some(loss);
        trained := trained + [head];
        pending := pending[1..];
      case Raised(message) =>
        if !IsCudaError(message) {
          return Reraised(message, Worker(pending, trained, lastLoss, oomLog));
        }
        oomLog := oomLog + [|head|];
        var length := |head|;
        var half := length / 2;
        if length != 1 {
          pending := SplitAll(pending, half);
        }
      }
      steps := steps + 1;
    }
    var state := Worker(pending, trained, lastLoss, oomLog);
    if |pending| == 0 {
      out := Finished(lastLoss, state);
    } else {
      out := Stalled(state);
    }
  }

  /** The `for` loop of the split as written: every piece of the worklist is
      replaced by two copies of its first `half` rows. */
  method SplitAll<R>(pending: seq<seq<R>>, half: nat) returns (divided: seq<seq<R>>)
    ensures divided == DuplicateHalves(pending, half)
  {
    divided := [];
    var i := 0;
    while i < |pending|
      invariant 0 <= i <= |pending|
      invariant |divided| == 2 * i
      invariant forall k | 0 <= k < i ::
        divided[2 * k] == Take(pending[k], half) && divided[2 * k + 1] == Take(pending[k], half)
    {
      divided := divided + [Take(pending[i], half), Take(pending[i], half)];
      i := i + 1;
    }
    assert divided == DuplicateHalves(pending, half) by {
      var expected := DuplicateHalves(pending, half);
      forall j | 0 <= j < |divided| ensures divided[j] == expected[j] {
        var k := j / 2;
        assert 0 <= k < |pending| && (j == 2 * k || j == 2 * k + 1);
        assert expected[2 * k] == Take(pending[k], half) == expected[2 * k + 1];
      }
    }
  }

  function StateOf<R>(out: Outcome<R>): Worker<R>
  {
    match out
    case Finished(_, w) => w
    case Reraised(_, w) => w
    case Stalled(w) => w
  }

  /** A successful attempt removes exactly the head of the worklist and records
      its loss; an error without "CUDA" in its message is re-raised with the
      worklist unchanged. */
  lemma StepOnSuccessOrForeignError<R>(w: Worker<R>, attempt: seq<R> -> Attempt)
    requires |w.pending| > 0
    ensures attempt(w.pending[0]).Succeeded? ==>
      Step(w, attempt) == Continue(Worker(w.pending[1..], w.trained + [w.pending[0]],
                                          Some(attempt(w.pending[0]).loss), w.oomLog))
    ensures attempt(w.pending[0]).Raised? && !IsCudaError(attempt(w.pending[0]).message) ==>
      Step(w, attempt) == Raise(attempt(w.pending[0]).message) &&
      Run(w, attempt, 1) == Reraised(attempt(w.pending[0]).message, w)
  {
  }

  /** Every piece of the worklist has the same number of rows. */
  predicate Uniform<R>(pieces: seq<seq<R>>)
  {
    forall i | 0 <= i < |pieces| :: |pieces[i]| == |pieces[0]|
  }

  /** On a CUDA error with a head of L > 1 rows over a uniform worklist, the
      worklist doubles, each item is replaced by two copies of its first
      floor(L/2) rows, and every new piece has floor(L/2) rows. */
  lemma {:induction false} CudaSplitDoubles<R>(w: Worker<R>, attempt: seq<R> -> Attempt)
    requires |w.pending| > 0 && Uniform(w.pending)
    requires attempt(w.pending[0]).Raised? && IsCudaError(attempt(w.pending[0]).message)
    requires |w.pending[0]| > 1
    ensures Step(w, attempt).Continue?
    ensures var next := Step(w, attempt).next; var half := |w.pending[0]| / 2;
      && |next.pending| == 2 * |w.pending|
      && (forall i | 0 <= i < |w.pending| ::
            next.pending[2 * i] == w.pending[i][..half] && next.pending[2 * i + 1] == w.pending[i][..half])
      && (forall j | 0 <= j < |next.pending| :: |next.pending[j]| == half)
      && Uniform(next.pending)
      && next.trained == w.trained && next.oomLog == w.oomLog + [|w.pending[0]|]
  {
    var next := Step(w, attempt).next;
    var half := |w.pending[0]| / 2;
    assert next.pending == DuplicateHalves(w.pending, half);
    forall j | 0 <= j < |next.pending| ensures |next.pending[j]| == half {
      var i := j / 2;
      assert j == 2 * i || j == 2 * i + 1;
      assert |w.pending[i]| == |w.pending[0]|;
    }
  }

  /** On a CUDA error with a one-row head, only the log grows: the same piece
      is at the head again for the next iteration. */
  lemma SingleRowOomRetries<R>(w: Worker<R>, attempt: seq<R> -> Attempt)
    requires |w.pending| > 0 && |w.pending[0]| == 1
    requires attempt(w.pending[0]).Raised? && IsCudaError(attempt(w.pending[0]).message)
    ensures Step(w, attempt) == Continue(w.(oomLog := w.oomLog + [1]))
  {
  }

  /** As written, a one-row piece that keeps running out of memory is retried
      for ever: whatever the fuel, the worker never finishes and never raises. */
  lemma {:induction false} SingleRowOomStalls<R>(w: Worker<R>, attempt: seq<R> -> Attempt, fuel: nat)
    requires |w.pending| > 0 && |w.pending[0]| == 1
    requires attempt(w.pending[0]).Raised? && IsCudaError(attempt(w.pending[0]).message)
    ensures Run(w, attempt, fuel).Stalled?
    ensures StateOf(Run(w, attempt, fuel)).pending == w.pending
    decreases fuel
  {
    if fuel > 0 {
      SingleRowOomRetries(w, attempt);
      SingleRowOomStalls(w.(oomLog := w.oomLog + [1]), attempt, fuel - 1);
    }
  }

  /** A device that runs out of memory on every piece, whatever its size. */
  ghost predicate AlwaysOom<R(!new)>(attempt: seq<R> -> Attempt)
  {
    forall p: seq<R> :: attempt(p).Raised? && IsCudaError(attempt(p).message)
  }

  /** A batch that deterministically runs out of memory never lets the worker as
      written end, neither by finishing nor by raising: it keeps halving down to
      one row and then retries that row for ever. */
  lemma {:induction false} AlwaysOomNeverEnds<R(!new)>(w: Worker<R>, attempt: seq<R> -> Attempt, fuel: nat)
    requires AlwaysOom(attempt) && |w.pending| > 0
    ensures Run(w, attempt, fuel).Stalled?
    decreases fuel
  {
    if fuel > 0 {
      var head := w.pending[0];
      assert attempt(head).Raised? && IsCudaError(attempt(head).message);
      var next := Step(w, attempt).next;
      assert |next.pending| > 0 by {
        if |head| != 1 {
          assert |next.pending| == 2 * |w.pending|;
        }
      }
      AlwaysOomNeverEnds(next, attempt, fuel - 1);
    }
  }

  /** What every state reachable from `Start(data)` satisfies: all pieces are
      prefixes of `data`, the worklist is uniform, and the last loss is that of
      the last trained piece (none before the first success, when the worklist
      cannot be empty). */
  ghost predicate Reachable<R>(w: Worker<R>, data: seq<R>, attempt: seq<R> -> Attempt)
  {
    && PrefixesOf(w.pending, data)
    && PrefixesOf(w.trained, data)
    && Uniform(w.pending)
    && (w.trained == [] ==> w.lastLoss.None? && |w.pending| > 0)
    && (w.trained != [] ==> w.lastLoss.Some? && attempt(w.trained[|w.trained| - 1]) == Succeeded(w.lastLoss.value))
  }

  /** Every piece is a prefix of `data`. */
  ghost predicate PrefixesOf<R>(pieces: seq<seq<R>>, data: seq<R>)
  {
    forall i | 0 <= i < |pieces| :: |pieces[i]| <= |data| && pieces[i] == data[..|pieces[i]|]
  }

  /** Splitting a uniform worklist of prefixes yields prefixes of `half` rows. */
  lemma SplitKeepsPrefixes<R>(pending: seq<seq<R>>, half: nat, data: seq<R>)
    requires PrefixesOf(pending, data) && Uniform(pending) && |pending| > 0 && half <= |pending[0]|
    ensures PrefixesOf(DuplicateHalves(pending, half), data)
    ensures forall j | 0 <= j < |DuplicateHalves(pending, half)| :: |DuplicateHalves(pending, half)[j]| == half
  {
    var next := DuplicateHalves(pending, half);
    forall j | 0 <= j < |next|
      ensures |next[j]| == half && |next[j]| <= |data| && next[j] == data[..|next[j]|]
    {
      var i := j / 2;
      assert j == 2 * i || j == 2 * i + 1;
      assert next[j] == Take(pending[i], half);
    }
  }

  lemma {:induction false} StepKeepsReachable<R>(w: Worker<R>, data: seq<R>, attempt: seq<R> -> Attempt)
    requires Reachable(w, data, attempt) && |w.pending| > 0
    ensures Step(w, attempt).Continue? ==> Reachable(Step(w, attempt).next, data, attempt)
  {
    var head := w.pending[0];
    match attempt(head)
    case Succeeded(loss) =>
      var next := Step(w, attempt).next;
      assert next.trained[|next.trained| - 1] == head;
      assert forall i | 0 <= i < |next.pending| :: next.pending[i] == w.pending[i + 1];
    case Raised(message) =>
      if IsCudaError(message) && |head| != 1 {
        SplitKeepsPrefixes(w.pending, |head| / 2, data);
      }
  }

  lemma {:induction false} RunKeepsReachable<R>(w: Worker<R>, data: seq<R>, attempt: seq<R> -> Attempt, fuel: nat)
    requires Reachable(w, data, attempt)
    ensures Reachable(StateOf(Run(w, attempt, fuel)), data, attempt)
    decreases fuel
  {
    if |w.pending| > 0 && fuel > 0 {
      StepKeepsReachable(w, data, attempt);
      if Step(w, attempt).Continue? {
        RunKeepsReachable(Step(w, attempt).next, data, attempt, fuel - 1);
      }
    }
  }

  /** If the worker as written returns, it returns the loss of the last
      successful piece, some piece having succeeded; every piece it trained on
      is a prefix of the batch. */
  lemma FinishedReturnsLastLoss<R>(data: seq<R>, attempt: seq<R> -> Attempt, fuel: nat)
    requires Run(Start(data), attempt, fuel).Finished?
    ensures var out := Run(Start(data), attempt, fuel);
      && |out.state.trained| > 0
      && out.loss.Some?
      && attempt(out.state.trained[|out.state.trained| - 1]) == Succeeded(out.loss.value)
      && forall i | 0 <= i < |out.state.trained| ::
           |out.state.trained[i]| <= |data| && out.state.trained[i] == data[..|out.state.trained[i]|]
  {
    RunKeepsReachable(Start(data), data, attempt, fuel);
    RunFinishedEmptiesWorklist(Start(data), attempt, fuel);
  }

  lemma {:induction false} RunFinishedEmptiesWorklist<R>(w: Worker<R>, attempt: seq<R> -> Attempt, fuel: nat)
    ensures var out := Run(w, attempt, fuel);
      out.Finished? ==> out.state.pending == [] && out.loss == out.state.lastLoss
    decreases fuel
  {
    if |w.pending| > 0 && fuel > 0 && Step(w, attempt).Continue? {
      RunFinishedEmptiesWorklist(Step(w, attempt).next, attempt, fuel - 1);
    }
  }

  /** Every piece in the worklist and among the trained pieces has at most `bound` rows. */
  predicate PiecesAtMost<R>(w: Worker<R>, bound: nat)
  {
    && (forall i | 0 <= i < |w.pending| :: |w.pending[i]| <= bound)
    && (forall i | 0 <= i < |w.trained| :: |w.trained[i]| <= bound)
  }

  lemma {:induction false} RunKeepsPiecesAtMost<R>(w: Worker<R>, attempt: seq<R> -> Attempt, fuel: nat, bound: nat)
    requires PiecesAtMost(w, bound)
    ensures PiecesAtMost(StateOf(Run(w, attempt, fuel)), bound)
    decreases fuel
  {
    if |w.pending| > 0 && fuel > 0 {
      match Step(w, attempt)
      case Raise(_) =>
      case Continue(next) =>
        var head := w.pending[0];
        if attempt(head).Succeeded? {
          assert forall i | 0 <= i < |next.pending| :: next.pending[i] == w.pending[i + 1];
        } else if |head| != 1 {
          assert next.pending == DuplicateHalves(w.pending, |head| / 2);
          forall j | 0 <= j < |next.pending| ensures |next.pending[j]| <= bound {
            var i := j / 2;
            assert 0 <= i < |w.pending| && (j == 2 * i || j == 2 * i + 1);
            assert next.pending[2 * i] == Take(w.pending[i], |head| / 2) == next.pending[2 * i + 1];
          }
        }
        RunKeepsPiecesAtMost(next, attempt, fuel - 1, bound);
    }
  }

  /** Once the whole batch has run out of memory, the worker as written trains
      only on copies of the first floor(L/2) rows: no trained piece ever
      reaches row floor(L/2), so the rest of the batch contributes no gradient. */
  lemma TailRowsNeverTrained<R>(data: seq<R>, attempt: seq<R> -> Attempt, fuel: nat)
    requires |data| >= 2
    requires attempt(data).Raised? && IsCudaError(attempt(data).message)
    ensures var trained := StateOf(Run(Start(data), attempt, fuel)).trained;
      forall i | 0 <= i < |trained| :: |trained[i]| <= |data| / 2 && trained[i] == data[..|trained[i]|]
  {
    RunKeepsReachable(Start(data), data, attempt, fuel);
    var final := StateOf(Run(Start(data), attempt, fuel));
    assert PrefixesOf(final.trained, data);
    if fuel == 0 {
      assert final.trained == [];
    } else {
      var half := |data| / 2;
      var next := Step(Start(data), attempt).next;
      assert next == Worker(DuplicateHalves([data], half), [], None, [|data|]);
      assert Run(Start(data), attempt, fuel) == Run(next, attempt, fuel - 1);
      assert PiecesAtMost(next, half) by {
        assert next.pending == [Take(data, half), Take(data, half)];
      }
      RunKeepsPiecesAtMost(next, attempt, fuel - 1, half);
      assert PiecesAtMost(final, half);
    }
  }

  /** A device that runs out of memory on any piece of two or more rows. */
  function OomAboveOneRow(p: seq<int>): Attempt
  {
    if |p| >= 2 then Raised("CUDA out of memory") else Succeeded(0.5)
  }

  /** Concrete run of the worker as written on the batch [10, 20]: the second
      row is never trained, the first is trained twice. */
  lemma DuplicatedHalvesLoseRows()
    ensures Run(Start([10, 20]), OomAboveOneRow, 3) ==
      Finished(Some(0.5), Worker([], [[10], [10]], Some(0.5), [2]))
  {
    assert OccursAt("CUDA out of memory", "CUDA", 0);
    assert IsCudaError("CUDA out of memory");
    assert Take([10, 20], 1) == [10];
    assert DuplicateHalves([[10, 20]], 1) == [[10], [10]];
    var w1 := Step(Start([10, 20]), OomAboveOneRow).next;
    assert w1 == Worker([[10], [10]], [], None, [2]);
    var w2 := Step(w1, OomAboveOneRow).next;
    assert w2 == Worker([[10]], [[10]], Some(0.5), [2]);
    var w3 := Step(w2, OomAboveOneRow).next;
    assert w3 == Worker([], [[10], [10]], Some(0.5), [2]);
  }

  // ---------------------------------------------------------------------
  // The evidently intended worker.

  /** How the intended worker ends: every row trained, or an error raised on
      `piece` after the pieces in `trained` were trained. */
  datatype SplitOutcome<R> =
    | Completed(loss: real, trained: seq<seq<R>>, oomLog: seq<nat>)
    | Failed(message: string, piece: seq<R>, trained: seq<seq<R>>, oomLog: seq<nat>)

  /** The termination measure of a piece: a split of an L-row piece into two
      non-empty halves costs 2L - 2 < 2L - 1. */
  function Weight<R>(p: seq<R>): nat
  {
    if |p| == 0 then 1 else 2 * |p| - 1
  }

  function TotalWeight<R>(pieces: seq<seq<R>>): nat
  {
    if pieces == [] then 0 else Weight(pieces[0]) + TotalWeight(pieces[1..])
  }

  /** The divide-and-conquer worker as its documentation describes it: an
      out-of-memory head of two or more rows is replaced by its two halves, which
      are tried in turn; one that cannot be split any more is fatal. It always
      terminates, and on completion has trained every row of the batch exactly
      once, in order. */
  method TrainSplitting<R>(data: seq<R>, attempt: seq<R> -> Attempt) returns (out: SplitOutcome<R>)
    ensures forall i | 0 <= i < |out.trained| :: attempt(out.trained[i]).Succeeded?
    ensures out.Completed? ==>
      && Flatten(out.trained) == data
      && |out.trained| > 0
      && attempt(out.trained[|out.trained| - 1]) == Succeeded(out.loss)
    ensures out.Failed? ==>
      && attempt(out.piece) == Raised(out.message)
      && (IsCudaError(out.message) ==> |out.piece| <= 1)
      && Flatten(out.trained) + out.piece <= data
    ensures forall i | 0 <= i < |out.oomLog| :: out.oomLog[i] <= |data|
    ensures out.Completed? ==> forall i | 0 <= i < |out.oomLog| :: out.oomLog[i] >= 2
  {
    var pending := [data];
    var trained: seq<seq<R>> := [];
    var lastLoss: real := 0.0;
    var oomLog: seq<nat> := [];
    assert Flatten(pending) == data + Flatten([]);
    while |pending| != 0
      invariant SplitInvariant(data, attempt, pending, trained, lastLoss, oomLog)
      decreases TotalWeight(pending)
    {
      var head := pending[0];
      HeadFits(data, attempt, pending, trained, lastLoss, oomLog);
      match attempt(head)
      case Succeeded(loss) =>
        SucceedKeeps(data, attempt, pending, trained, lastLoss, oomLog);
        lastLoss := loss;
        trained := trained + [head];
        pending := pending[1..];
      case Raised(message) =>
        if !IsCudaError(message) {
          return Failed(message, head, trained, oomLog);
        }
        if |head| <= 1 {
          return Failed(message, head, trained, oomLog + [|head|]);
        }
        var half := |head| / 2;
        SplitKeeps(data, attempt, pending, trained, lastLoss, oomLog);
        oomLog := oomLog + [|head|];
        pending := [head[..half], head[half..]] + pending[1..];
    }
    out := Completed(lastLoss, trained, oomLog);
  }

  /** The invariant of the intended worker: the trained pieces followed by the
      worklist are the batch; every trained piece succeeded, the last with the
      loss kept; and every logged row count is between 2 and the batch size. */
  ghost predicate SplitInvariant<R>(
    data: seq<R>, attempt: seq<R> -> Attempt,
    pending: seq<seq<R>>, trained: seq<seq<R>>, lastLoss: real, oomLog: seq<nat>)
  {
    && Flatten(trained) + Flatten(pending) == data
    && (forall i | 0 <= i < |trained| :: attempt(trained[i]).Succeeded?)
    && (trained != [] ==> attempt(trained[|trained| - 1]) == Succeeded(lastLoss))
    && (trained == [] ==> |pending| > 0)
    && (forall i | 0 <= i < |oomLog| :: 2 <= oomLog[i] <= |data|)
  }

  /** The head of the worklist follows the trained pieces in the batch. */
  lemma HeadFits<R>(
    data: seq<R>, attempt: seq<R> -> Attempt,
    pending: seq<seq<R>>, trained: seq<seq<R>>, lastLoss: real, oomLog: seq<nat>)
    requires SplitInvariant(data, attempt, pending, trained, lastLoss, oomLog) && |pending| > 0
    ensures Flatten(trained) + pending[0] <= data && |pending[0]| <= |data|
  {
    HeadFollowsTrained(trained, pending, data);
  }

  /** A head whose pass succeeds moves to the trained pieces. */
  lemma SucceedKeeps<R>(
    data: seq<R>, attempt: seq<R> -> Attempt,
    pending: seq<seq<R>>, trained: seq<seq<R>>, lastLoss: real, oomLog: seq<nat>)
    requires SplitInvariant(data, attempt, pending, trained, lastLoss, oomLog) && |pending| > 0
    requires attempt(pending[0]).Succeeded?
    ensures SplitInvariant(data, attempt, pending[1..], trained + [pending[0]], attempt(pending[0]).loss, oomLog)
    ensures TotalWeight(pending[1..]) < TotalWeight(pending)
  {
    HeadFollowsTrained(trained, pending, data);
    var grown := trained + [pending[0]];
    forall i | 0 <= i < |grown| ensures attempt(grown[i]).Succeeded? {
      if i < |trained| {
        assert grown[i] == trained[i];
      }
    }
    assert grown[|grown| - 1] == pending[0];
  }

  /** A head of two or more rows that runs out of memory is replaced by its
      halves, and its row count is logged. */
  lemma SplitKeeps<R>(
    data: seq<R>, attempt: seq<R> -> Attempt,
    pending: seq<seq<R>>, trained: seq<seq<R>>, lastLoss: real, oomLog: seq<nat>)
    requires SplitInvariant(data, attempt, pending, trained, lastLoss, oomLog) && |pending| > 0
    requires |pending[0]| >= 2
    ensures var half := |pending[0]| / 2;
      var split := [pending[0][..half], pending[0][half..]] + pending[1..];
      && SplitInvariant(data, attempt, split, trained, lastLoss, oomLog + [|pending[0]|])
      && TotalWeight(split) < TotalWeight(pending)
  {
    HeadFollowsTrained(trained, pending, data);
    SplitKeepsRows(trained, pending, data);
  }

  /** Replacing a head of two or more rows by its halves keeps the rows and
      lowers the termination measure. */
  lemma SplitHead<R>(head: seq<R>, rest: seq<seq<R>>)
    requires |head| >= 2
    ensures var split := [head[..|head| / 2], head[|head| / 2..]] + rest;
      && Flatten(split) == head + Flatten(rest)
      && TotalWeight(split) < TotalWeight([head] + rest)
  {
    var half := |head| / 2;
    var split := [head[..half], head[half..]] + rest;
    assert split[1..] == [head[half..]] + rest;
    assert split[1..][1..] == rest;
    assert ([head] + rest)[1..] == rest;
    assert head[..half] + head[half..] == head;
  }

  /** The head of the worklist follows the trained pieces in the batch: it
      fits the batch, and moving it to the trained pieces keeps every row. */
  lemma HeadFollowsTrained<R>(trained: seq<seq<R>>, pending: seq<seq<R>>, data: seq<R>)
    requires |pending| > 0 && Flatten(trained) + Flatten(pending) == data
    ensures Flatten(trained) + pending[0] <= data && |pending[0]| <= |data|
    ensures Flatten(trained + [pending[0]]) + Flatten(pending[1..]) == data
    ensures TotalWeight(pending[1..]) < TotalWeight(pending)
  {
    assert Flatten(pending) == pending[0] + Flatten(pending[1..]);
    assert Flatten(trained) + Flatten(pending) == (Flatten(trained) + pending[0]) + Flatten(pending[1..]);
    PrefixOfJoin(Flatten(trained) + pending[0], Flatten(pending[1..]), data);
    FlattenSnoc(trained, pending[0]);
  }

  /** Splitting the head of the worklist keeps every row and lowers the
      termination measure. */
  lemma SplitKeepsRows<R>(trained: seq<seq<R>>, pending: seq<seq<R>>, data: seq<R>)
    requires |pending| > 0 && |pending[0]| >= 2 && Flatten(trained) + Flatten(pending) == data
    ensures var split := [pending[0][..|pending[0]| / 2], pending[0][|pending[0]| / 2..]] + pending[1..];
      && Flatten(trained) + Flatten(split) == data
      && TotalWeight(split) < TotalWeight(pending)
  {
    SplitHead(pending[0], pending[1..]);
    assert pending == [pending[0]] + pending[1..];
    assert Flatten(pending) == pending[0] + Flatten(pending[1..]);
  }

  lemma PrefixOfJoin<R>(front: seq<R>, back: seq<R>, whole: seq<R>)
    requires front + back == whole
    ensures front <= whole
  {
    assert whole[..|front|] == front;
  }
}
