/** How the trainer picks its next job: the jobs whose status matches
    `(training|waiting)`, in the store's order, sorted ascending by `add_time`
    with a stable sort; the head of the sorted queue is trained next. */
module JobQueue {
  import opened Common
  import opened Documents

  /** The store's regular-expression match of `(training|waiting)` against the
      status: an unanchored search, so any status containing either word matches. */
  predicate Queued(status: string): (q: bool)
    ensures q ==> |status| >= |"waiting"|
  {
    Contains(status, "training") || Contains(status, "waiting")
  }

  /** The statuses the trainer writes: "training" stays in the queue, "done"
      leaves it, and a freshly submitted "waiting" job is in it. */
  lemma QueuedStatuses()
    ensures Queued("training") && Queued("waiting")
    ensures !Queued("done") && !Queued("")
  {
    assert OccursAt("training", "training", 0);
    assert OccursAt("waiting", "waiting", 0);
    ShorterNeverContains("done", "training");
    ShorterNeverContains("done", "waiting");
    ShorterNeverContains("", "training");
    ShorterNeverContains("", "waiting");
  }

  /** A job of the queue: its position in the job collection and its `add_time`. */
  datatype QueueEntry = QueueEntry(index: nat, addTime: Time)

  /** The queued jobs in the store's order. */
  function QueueOf(jobs: seq<Job>): (q: seq<QueueEntry>)
    ensures |q| <= |jobs|
    ensures forall e | 0 <= e < |q| ::
      q[e].index < |jobs| && Queued(jobs[q[e].index].status) && q[e].addTime == jobs[q[e].index].addTime
    ensures forall a, b | 0 <= a < b < |q| :: q[a].index < q[b].index
  {
    if |jobs| == 0 then []
    else
      var last := |jobs| - 1;
      var front := QueueOf(jobs[..last]);
      assert forall k | 0 <= k < last :: jobs[..last][k] == jobs[k];
      front + (if Queued(jobs[last].status) then [QueueEntry(last, jobs[last].addTime)] else [])
  }

  /** Every queued job has an entry in the queue; returns its position. */
  lemma {:induction false} PositionInQueue(jobs: seq<Job>, k: nat) returns (e: nat)
    requires k < |jobs| && Queued(jobs[k].status)
    ensures e < |QueueOf(jobs)| && QueueOf(jobs)[e].index == k
  {
    var last := |jobs| - 1;
    var front := QueueOf(jobs[..last]);
    assert QueueOf(jobs)[..|front|] == front;
    if k == last {
      e := |front|;
    } else {
      assert jobs[..last][k] == jobs[k];
      e := PositionInQueue(jobs[..last], k);
    }
  }

  /** Updating one queued job to a status outside the queue removes exactly one
      entry from the queue. */
  lemma {:induction false} QueueShrinks(jobs: seq<Job>, k: nat, job: Job)
    requires k < |jobs| && Queued(jobs[k].status) && !Queued(job.status)
    ensures |QueueOf(jobs[k := job])| == |QueueOf(jobs)| - 1
  {
    var last := |jobs| - 1;
    var updated := jobs[k := job];
    if k == last {
      assert updated[..last] == jobs[..last];
    } else {
      assert updated[..last] == jobs[..last][k := job];
      QueueShrinks(jobs[..last], k, job);
    }
  }

  /** Insert `e` before the first entry that is not older than it. */
  function Insert(e: QueueEntry, sorted: seq<QueueEntry>): (r: seq<QueueEntry>)
    ensures |r| == |sorted| + 1
    ensures multiset(r) == multiset(sorted) + multiset{e}
  {
    if sorted == [] then [e]
    else if e.addTime <= sorted[0].addTime then [e] + sorted
    else
      assert sorted == [sorted[0]] + sorted[1..];
      [sorted[0]] + Insert(e, sorted[1..])
  }

  /** `training_queue.sort(key=lambda x: x["add_time"])`: a stable ascending
      sort, here an insertion sort from the back, so an entry stays ahead of
      later entries with the same `add_time`. */
  function SortByAddTime(q: seq<QueueEntry>): (r: seq<QueueEntry>)
    ensures |r| == |q|
    ensures multiset(r) == multiset(q)
  {
    if q == [] then []
    else
      assert q == [q[0]] + q[1..];
      Insert(q[0], SortByAddTime(q[1..]))
  }

  predicate Ascending(s: seq<QueueEntry>)
  {
    forall i, j | 0 <= i < j < |s| :: s[i].addTime <= s[j].addTime
  }

  lemma {:induction false} InsertKeepsAscending(e: QueueEntry, sorted: seq<QueueEntry>)
    requires Ascending(sorted)
    ensures Ascending(Insert(e, sorted))
  {
    if sorted != [] && e.addTime > sorted[0].addTime {
      InsertKeepsAscending(e, sorted[1..]);
      var rest := Insert(e, sorted[1..]);
      assert multiset(rest) == multiset(sorted[1..]) + multiset{e};
      forall j | 0 <= j < |rest| ensures sorted[0].addTime <= rest[j].addTime {
        assert rest[j] in multiset(rest);
        if rest[j] != e {
          assert rest[j] in multiset(sorted[1..]);
          var m :| 0 <= m < |sorted[1..]| && sorted[1..][m] == rest[j];
          assert sorted[0].addTime <= sorted[m + 1].addTime;
        }
      }
    }
  }

  /** The sorted queue is in ascending `add_time` order and is a permutation of the queue. */
  lemma {:induction false} SortIsAscendingPermutation(q: seq<QueueEntry>)
    ensures Ascending(SortByAddTime(q))
    ensures multiset(SortByAddTime(q)) == multiset(q)
  {
    if q != [] {
      SortIsAscendingPermutation(q[1..]);
      InsertKeepsAscending(q[0], SortByAddTime(q[1..]));
    }
  }

  /** The first entry with the least `add_time`. */
  function Oldest(q: seq<QueueEntry>): (i: nat)
    requires |q| > 0
    ensures i < |q|
    ensures forall j | 0 <= j < |q| :: q[i].addTime <= q[j].addTime
    ensures forall j | 0 <= j < i :: q[j].addTime > q[i].addTime
  {
    if |q| == 1 then 0
    else
      var r := 1 + Oldest(q[1..]);
      assert forall j | 1 <= j < |q| :: q[j] == q[1..][j - 1];
      if q[0].addTime <= q[r].addTime then 0 else r
  }

  /** The head of the stable sort is the first of the oldest entries. */
  lemma {:induction false} SortHeadIsOldest(q: seq<QueueEntry>)
    requires |q| > 0
    ensures SortByAddTime(q)[0] == q[Oldest(q)]
  {
    if |q| > 1 {
      SortHeadIsOldest(q[1..]);
      assert forall j | 1 <= j < |q| :: q[j] == q[1..][j - 1];
    }
  }

  /** The index of the job `main` trains next, or None when the queue is empty. */
  function Select(jobs: seq<Job>): (s: Option<nat>)
    ensures s.None? <==> |QueueOf(jobs)| == 0
    ensures s.Some? ==> s.value < |jobs| && Queued(jobs[s.value].status)
  {
    var q := QueueOf(jobs);
    if q == [] then None
    else
      SortHeadIsOldest(q);
      Some(SortByAddTime(q)[0].index)
  }

  /** With a non-empty queue, selection is the head of the sorted queue. */
  lemma SelectIsSortHead(jobs: seq<Job>)
    requires |QueueOf(jobs)| > 0
    ensures Select(jobs) == Some(SortByAddTime(QueueOf(jobs))[0].index)
  {
  }

  /** Selection picks a queued job with the least `add_time`, ties going to the
      job stored first; it picks nothing exactly when no job is queued. */
  lemma SelectOldestQueued(jobs: seq<Job>)
    ensures Select(jobs).None? <==> forall k | 0 <= k < |jobs| :: !Queued(jobs[k].status)
    ensures Select(jobs).Some? ==>
      var k := Select(jobs).value;
      && k < |jobs| && Queued(jobs[k].status)
      && (forall j | 0 <= j < |jobs| && Queued(jobs[j].status) :: jobs[k].addTime <= jobs[j].addTime)
      && (forall j | 0 <= j < k && Queued(jobs[j].status) :: jobs[k].addTime < jobs[j].addTime)
  {
    var q := QueueOf(jobs);
    if q != [] {
      SortHeadIsOldest(q);
      SelectedIsOldest(jobs, Oldest(q));
    } else {
      forall k | 0 <= k < |jobs| ensures !Queued(jobs[k].status) {
        if Queued(jobs[k].status) {
          var e := PositionInQueue(jobs, k);
        }
      }
    }
  }

  lemma SelectedIsOldest(jobs: seq<Job>, i: nat)
    requires |QueueOf(jobs)| > 0 && i == Oldest(QueueOf(jobs))
    ensures var k := QueueOf(jobs)[i].index;
      && (forall j | 0 <= j < |jobs| && Queued(jobs[j].status) :: jobs[k].addTime <= jobs[j].addTime)
      && (forall j | 0 <= j < k && Queued(jobs[j].status) :: jobs[k].addTime < jobs[j].addTime)
  {
    var q := QueueOf(jobs);
    var k := q[i].index;
    assert q[i].addTime == jobs[k].addTime;
    forall j | 0 <= j < |jobs| && Queued(jobs[j].status)
      ensures jobs[k].addTime <= jobs[j].addTime
      ensures j < k ==> jobs[k].addTime < jobs[j].addTime
    {
      var e := PositionInQueue(jobs, j);
      assert q[e].addTime == jobs[j].addTime;
      assert q[i].addTime <= q[e].addTime;
      if j < k {
        assert e < i;
        assert q[e].addTime > q[i].addTime;
      }
    }
  }
}
