# Named-entity labelling backend: a verified model of its core

This project models the core of a backend for named-entity labels. The backend has two sides.

The API side stores labelled sentences and label definitions:
- it refuses label names containing `;`, `|`, `(` or `)`;
- it refuses duplicate names;
- it splits submitted words into sentences at the word `.` labelled `O`;
- it tokenises each word, with a leading space for inner words, and gives every token its word's labels;
- it stores one record per sentence;
- it reads records back page by page, with Python slice semantics;
- it describes a label with the number of records that use it or a label it inherits.

The trainer side is a loop over a job queue. It takes the queued job (status matching `training|waiting`) with the oldest `add_time`, breaking ties by store order. It picks the job's training rows from the corpus and marks the job and its label as "training". It trains epoch by epoch over fixed-size, zero-padded mini-batches. On success it publishes the artifact `<label>_epoch_<epochs>_<dateStamp>` to the job and to the label's adapter history. On failure it logs the traceback and stops. One forward/backward pass runs under an out-of-memory worker that retries a batch in smaller pieces.

The model is organised as follows:
- `Documents` holds the records of the three collections. It also has the class `Database`, whose fields the operations update in place.
- `Collate` is the batch collator.
- `AutoAdjust` is the out-of-memory worker. It exists twice: as written, and corrected.
- `Epochs` is the data loader and the epoch and batch loops.
- `JobQueue` is queue selection.
- `Scheduler` is the trainer's main loop.
- `LabeledText` is the API endpoints.

The loops of the source are methods with loop invariants. Each is proved against a specification function or a predicate on the new state, and lemmas prove what those functions promise.

Several things are parameters of the model, not parts of it:
- the tokenizer, the store's evaluation of a custom filter, the dataset builder and one forward/backward pass;
- the traceback text of an error, the object ids the store assigns, the clock and the date stamp.

## Model

| member | source | states |
|---|---|---|
| Collate.MaxLen | trainer/NER_trainer.py:64-67 | the padded width: no row is longer, some row attains it, 0 for no rows |
| Collate.PadSequence | trainer/NER_trainer.py:64-67 | one row per input; row k is input row k right-padded with 0 to the longest length |
| Collate.MaskOf | trainer/NER_trainer.py:71-74 | the mask has the token grid's shape |
| Collate.TokenColumn | trainer/NER_trainer.py:52 | entry k is sample k's token ids, in input order |
| Collate.SegmentColumn | trainer/NER_trainer.py:53 | entry k is sample k's segment ids, in input order |
| Collate.LabelColumn | trainer/NER_trainer.py:57 | entry k is sample k's labels, in input order |
| Collate.CollateFailsOnlyOn | trainer/NER_trainer.py:51-61 | collation fails exactly on an empty batch (`samples[0]`) or when the first sample is labelled and a later one is not; the empty batch is the only `EmptyBatch` |
| Collate.CreateMiniBatch | trainer/NER_trainer.py:51-76 | a batch is collated iff it is non-empty and, when the first sample is labelled, every sample is; the token, segment and mask grids have one row per sample; labels are present iff the first sample is labelled, one row per sample |
| Collate.CollatedGrids | trainer/NER_trainer.py:51-67 | N rows of width max(L_i); row k starts with sample k's tokens (segments) and is 0 after them |
| Collate.WidthIsLongestSample | trainer/NER_trainer.py:64-67 | every sample fits its row and some sample fills it |
| Collate.MaskMatchesTokens | trainer/NER_trainer.py:71-74 | a mask cell is 1 iff the padded token cell is non-zero, 0 iff it is zero |
| Collate.LabelsPaddedIffFirstLabelled | trainer/NER_trainer.py:56-61 | labels are collated iff the first sample has them; then there is one row per sample, every row as wide as the longest label list, and row k is sample k's labels right-padded with 0 |
| Collate.OnesOfPaddedMask | trainer/NER_trainer.py:71-74 | the mask of a zero-padded row without zero ids has exactly as many ones as the row has ids |
| Collate.MaskRowSumIsLength | trainer/NER_trainer.py:69-74 | when no token id is 0, mask row k sums to sample k's length |
| Common.NatToString | trainer/NER_trainer.py:275 | the decimal form of the epoch count: non-empty, digits only, no leading zero, and its digits read back as the count |
| AutoAdjust.DuplicateHalves | trainer/NER_trainer.py:122-132 | the split as written: the worklist doubles and both entries 2i and 2i+1 are the first floor(L/2) rows of piece i |
| AutoAdjust.Step | trainer/NER_trainer.py:84-132 | one iteration re-raises exactly an error of the head without "CUDA", with its message; otherwise the head joins the trained pieces iff its pass succeeded, and one row count is logged iff it raised |
| AutoAdjust.Run | trainer/NER_trainer.py:84-143 | the worker ends with an empty worklist when it returns, with work left and an error without "CUDA" when it re-raises, and with work left when its fuel is spent; pieces trained before are kept in front |
| AutoAdjust.SplitAll | trainer/NER_trainer.py:122-132 | the split loop computes `DuplicateHalves`: entries 2i and 2i+1 are both the first `half` rows of piece i |
| AutoAdjust.TrainAutoAdjust | trainer/NER_trainer.py:79-143 | the worker loop as written ends in exactly the state of `Run` from `datas = [data]` |
| AutoAdjust.StepOnSuccessOrForeignError | trainer/NER_trainer.py:84-110 | a success pops exactly the head and records its loss; an error without "CUDA" is re-raised with the worklist unchanged |
| AutoAdjust.CudaSplitDoubles | trainer/NER_trainer.py:117-132 | a CUDA error on a head of L > 1 rows doubles the worklist into pieces of floor(L/2) rows, logs L, and trains nothing |
| AutoAdjust.SingleRowOomRetries | trainer/NER_trainer.py:117-121 | a CUDA error on a one-row head only logs; the same worklist is retried |
| AutoAdjust.SingleRowOomStalls | trainer/NER_trainer.py:84-121 | a one-row head that keeps running out of memory stalls the worker for any fuel, with its worklist unchanged |
| AutoAdjust.AlwaysOomNeverEnds | trainer/NER_trainer.py:84-132 | on a device that always runs out of memory, the worker as written neither returns nor raises |
| AutoAdjust.SplitKeepsPrefixes | trainer/NER_trainer.py:122-132 | a split of a uniform worklist of prefixes of the batch yields prefixes of floor(L/2) rows |
| AutoAdjust.StepKeepsReachable | trainer/NER_trainer.py:83-132 | one iteration keeps the worker's invariant: pieces are prefixes of the batch, the worklist is uniform, the last loss is that of the last trained piece |
| AutoAdjust.RunKeepsReachable | trainer/NER_trainer.py:83-132 | the invariant holds however many iterations run |
| AutoAdjust.FinishedReturnsLastLoss | trainer/NER_trainer.py:105-143 | if the worker as written returns, some piece was trained and the result is the loss of the last one |
| AutoAdjust.RunFinishedEmptiesWorklist | trainer/NER_trainer.py:84-143 | the worker returns only with an empty worklist, returning its last loss |
| AutoAdjust.RunKeepsPiecesAtMost | trainer/NER_trainer.py:119-132 | splitting never makes a piece longer |
| AutoAdjust.TailRowsNeverTrained | trainer/NER_trainer.py:119-132 | once the whole batch runs out of memory, every trained piece is a prefix of at most floor(L/2) rows |
| AutoAdjust.DuplicatedHalvesLoseRows | trainer/NER_trainer.py:119-132 | batch [10, 20] with out-of-memory on two rows: the worker trains [10] twice and never trains row 20 |
| AutoAdjust.TrainSplitting | trainer/NER_trainer.py:79-82 | the corrected worker terminates; on completion its pieces concatenate to the batch, each trained once, and the loss is the last piece's; a failure names a piece that raised, which is at most one row when the error is out-of-memory; no logged row count exceeds the batch size, and on completion every one is at least 2 |
| AutoAdjust.SucceedKeeps | trainer/NER_trainer.py:84-106 | a head whose pass succeeds joins the trained pieces: the trained pieces and the worklist still make up the batch, all trained pieces succeeded, the last loss is the head's, and the termination measure drops |
| AutoAdjust.SplitKeeps | trainer/NER_trainer.py:117-132 | an out-of-memory head of two or more rows replaced by its two halves: the batch is still covered, the logged count lies between 2 and the batch size, and the termination measure drops |
| AutoAdjust.SplitHead | trainer/NER_trainer.py:80-82 | halving the head keeps every row, in order, and lowers the termination measure |
| Epochs.Batches | trainer/NER_trainer.py:221-222 | the loader's batches concatenate to the dataset; every batch is non-empty with at most `batch_size` items, and all but the last are full |
| Epochs.BatchCount | trainer/NER_trainer.py:221-222 | there are ceil(N / batch_size) batches |
| Epochs.RowsOf | trainer/NER_trainer.py:124-128 | a collated batch has one row per sample |
| Epochs.OomEntries | trainer/NER_trainer.py:117-118 | one out-of-memory message per split event, with its row count |
| Epochs.NoProgressInOomEntries | trainer/NER_trainer.py:117-118 | out-of-memory messages are not progress messages |
| Epochs.EpochRoundsCount | trainer/NER_trainer.py:264-270 | an epoch over N batches logs ceil(N / 10) progress messages |
| Epochs.ProgressRoundsShape | trainer/NER_trainer.py:259-270 | E epochs log E * ceil(N / 10) progress messages, each for an epoch in 1..E and a round that is a multiple of 10 below N |
| Epochs.TrainBatch | trainer/NER_trainer.py:264-265 | collation fails iff the batch is not collatable, and then nothing is logged; otherwise the log holds only out-of-memory messages of at most the batch's rows, and on success the pieces trained concatenate to the collated rows, every one succeeded and the loss is the last one's; it never fails with a missing label index |
| Epochs.TrainRound | trainer/NER_trainer.py:264-270 | round i logs progress `(epoch, i)` iff its batch trained and i is a multiple of 10, and every progress message carries the loss of batch i |
| Epochs.TrainEpoch | trainer/NER_trainer.py:264-272 | a completed epoch logged progress exactly at rounds 0, 10, 20, ...; every progress message names this epoch and a round, with the loss that round's batch trained to |
| Epochs.TrainEpochs | trainer/NER_trainer.py:259-272 | on success the job log's progress messages are exactly those of every epoch in order; the label index is missing iff there is an epoch and the label has no index, and then nothing is logged; every progress message names an epoch in 1..E and a round, with the loss its batch trained to |
| JobQueue.QueuedStatuses | trainer/NER_trainer.py:164-166 | "training" and "waiting" are queued; "done" and "" are not |
| JobQueue.Queued | trainer/NER_trainer.py:164-166 | the unanchored `training|waiting` match: a queued status holds at least as many characters as "waiting" |
| JobQueue.QueueOf | trainer/NER_trainer.py:164-167 | the queue holds only queued jobs, each with its `add_time`, in store order |
| JobQueue.PositionInQueue | trainer/NER_trainer.py:164-167 | every queued job is in the queue |
| JobQueue.QueueShrinks | trainer/NER_trainer.py:164-167 | moving one queued job out of the queued statuses shortens the queue by one |
| JobQueue.SortByAddTime | trainer/NER_trainer.py:174 | the sort keeps length and contents |
| JobQueue.SortIsAscendingPermutation | trainer/NER_trainer.py:174 | the sorted queue is ascending in `add_time` and a permutation of the queue |
| JobQueue.Oldest | trainer/NER_trainer.py:174-176 | the first entry with the least `add_time` |
| JobQueue.SortHeadIsOldest | trainer/NER_trainer.py:174-176 | the stable sort's head is the first oldest entry |
| JobQueue.Select | trainer/NER_trainer.py:164-176 | nothing is selected iff the queue is empty; a selected job is queued |
| JobQueue.SelectOldestQueued | trainer/NER_trainer.py:164-176 | nothing is selected iff no job is queued; otherwise the selected job is queued, has the least `add_time`, and every queued job stored before it is strictly younger |
| Scheduler.MatchingIds | trainer/NER_trainer.py:150-151 | the ids the store returns are exactly those of the labelled sentences the filter matches |
| Scheduler.FilterRows | trainer/NER_trainer.py:153 | a corpus row is kept iff its sentence id is wanted |
| Scheduler.FilterRowsAppend | trainer/NER_trainer.py:153 | the filter keeps corpus order: it distributes over concatenation |
| Scheduler.ArtifactName | trainer/NER_trainer.py:275 | the artifact name is `<label>_epoch_<epochs in decimal>_<dateStamp>`, starting with `<label>_epoch_` and ending with `_<dateStamp>` |
| Scheduler.HandleJob | trainer/NER_trainer.py:179-321 | for a queued job k: a dataset error logs one traceback to both sinks; a missing label logs the start and the traceback; otherwise the job is trained as `TrainedAs` states. Only job k changes. Its submission fields are kept, and it has its artifact when published. Only its label changes, and it then points at its newest artifact |
| Scheduler.TrainJob | trainer/NER_trainer.py:188-309 | the start is logged, job and label become "training", and the job gets its data count, positive label and label snapshot. On success the epochs logged every progress round, the job is "done" with its artifact, and the label's adapter publishes it with one more history entry. On failure the traceback is logged twice to each sink |
| Scheduler.TrainedAsFacts | trainer/NER_trainer.py:288-309 | after training, the job is "done" iff published, its artifact is set only then, and only its label changes, pointing at its newest artifact when "done" |
| Scheduler.LogBoth | trainer/NER_trainer.py:189-190 | one message list is appended to the trainer log and to job k's log, nothing else changes |
| Scheduler.KeepStoredIffDone | trainer/NER_trainer.py:288-295 | rewriting one job whose artifact is set iff it is "done" keeps that true of all jobs |
| Scheduler.LabelUpdateKeepsNewest | trainer/NER_trainer.py:297-309 | rewriting one label that points at its newest artifact keeps that true of all labels |
| Scheduler.Iterate | trainer/NER_trainer.py:162-321 | an empty queue changes nothing: jobs, labels, texts, trainer log and flags are kept; otherwise the selected job, and only it, is handled as `HandleJob` states (dataset error, missing label, or trained as `TrainedAs` states), keeps its submission fields and is "done" iff published; texts and flags never change; both store invariants are kept |
| Scheduler.Pass | trainer/NER_trainer.py:162-321 | one pass keeps the loop's invariant: on an empty queue every job queued at the start was trained; an aborted pass leaves the trained jobs "done"; a trained job extends the trained order and the queue shrinks |
| Scheduler.RunScheduler | trainer/NER_trainer.py:162-321 | trained jobs were queued at the start and are now "done", none twice, in ascending `add_time` order; a clean exit leaves no job queued and has trained every job queued at the start; both store invariants are kept |
| Scheduler.EmptyQueueTrainedAll | trainer/NER_trainer.py:169-171 | when nothing is queued, every job queued at the start has been trained |
| Scheduler.AbortedKeepsTrained | trainer/NER_trainer.py:313-321 | an error in one pass leaves the jobs trained before it "done" |
| Scheduler.TrainedNext | trainer/NER_trainer.py:173-176 | training the oldest queued job extends the trained order and keeps the loop invariant |
| LabeledText.FindForbidden | api/api_v1/endpoints/labeledText_api.py:48 | every match is one of `;`, `|`, `(`, `)`, and every occurrence of one in the name is matched |
| LabeledText.RefusedIffForbidden | api/api_v1/endpoints/labeledText_api.py:48-49 | a name is refused iff it contains a forbidden character |
| LabeledText.JoinChars | api/api_v1/endpoints/labeledText_api.py:52 | the joined message has the matches separated by the separator: its length is fixed by theirs |
| LabeledText.JoinPlacesEachMatch | api/api_v1/endpoints/labeledText_api.py:52 | the i-th match sits at position i * (separator length + 1) of the message |
| LabeledText.NewLabel | api/api_v1/endpoints/labeledText_api.py:67-81 | a new label carries the requested name, user, inherited labels, alias, comment and tags, and an adapter with no artifact, no status and an empty history |
| LabeledText.DefineNewLabel | api/api_v1/endpoints/labeledText_api.py:46-92 | a forbidden character gives 406 with the message; an existing name gives 200, a failure message and the stored label; a failed insert gives 200 and a failure message. In all three nothing is stored. Otherwise the label is stored and 201 returned. No other collection changes |
| LabeledText.Sentences | api/api_v1/endpoints/labeledText_api.py:170-181 | there is always at least one sentence |
| LabeledText.Segment | api/api_v1/endpoints/labeledText_api.py:170-181 | the sentence loop computes `Sentences` |
| LabeledText.SentencesRejoin | api/api_v1/endpoints/labeledText_api.py:170-181 | the sentences concatenate to the submitted words |
| LabeledText.SentenceCount | api/api_v1/endpoints/labeledText_api.py:175-181 | there is one more sentence than there are terminators |
| LabeledText.InnerSentencesClosed | api/api_v1/endpoints/labeledText_api.py:175-180 | every sentence but the last ends with a terminator and has no earlier one |
| LabeledText.LastSentenceOpen | api/api_v1/endpoints/labeledText_api.py:177-181 | the last sentence has no terminator (it is empty when the words end with one) |
| LabeledText.InnerWordsGetSpace | api/api_v1/endpoints/labeledText_api.py:187-192 | word i is tokenised with a leading space iff 0 < i < last index, and as is otherwise |
| LabeledText.WordInput | api/api_v1/endpoints/labeledText_api.py:187-192 | the tokenizer input of word i is the word's text, preceded by one space exactly for inner words |
| LabeledText.TokensOf | api/api_v1/endpoints/labeledText_api.py:188-198 | every token of the first n words carries the labels of one of those words |
| LabeledText.Tagged | api/api_v1/endpoints/labeledText_api.py:194-198 | every token of a word carries the word's labels unchanged |
| LabeledText.TokenizeSentence | api/api_v1/endpoints/labeledText_api.py:186-198 | the token loop computes `TokensOf` over the whole sentence |
| LabeledText.WordTokensAt | api/api_v1/endpoints/labeledText_api.py:188-198 | the tokens of word i follow those of the words before it, in tokenizer order, each with word i's labels |
| LabeledText.TokensPrefix | api/api_v1/endpoints/labeledText_api.py:186-198 | the token loop only appends: the tokens of the first m words begin those of the first n >= m words |
| LabeledText.Records | api/api_v1/endpoints/labeledText_api.py:185-208 | one record per sentence, record s holding sentence s and the s-th object id |
| LabeledText.StoredIds | api/api_v1/endpoints/labeledText_api.py:203-208 | appended records follow the old ones, sentence s's record under the s-th object id |
| LabeledText.IngestedWordsRejoin | api/api_v1/endpoints/labeledText_api.py:185-208 | the stored sentences, read in order, are the submitted words |
| LabeledText.UpdateLabeledData | api/api_v1/endpoints/labeledText_api.py:166-216 | the records are appended in sentence order and the ids returned in the same order, one per sentence; the modification time is stamped; a restart is flagged iff asked; labels, jobs and the trainer log are unchanged |
| LabeledText.SliceBound | api/api_v1/endpoints/labeledText_api.py:234 | a slice bound counts from the end when negative and is clamped to 0..len |
| LabeledText.PySlice | api/api_v1/endpoints/labeledText_api.py:234 | Python slicing: both bounds normalised, the result has max(hi - lo, 0) items and item i is item lo + i of the list |
| LabeledText.ToList | api/api_v1/endpoints/labeledText_api.py:233 | the cursor fails iff the length is negative; `None` returns every record; otherwise it returns the first min(length, count) records |
| LabeledText.PageAsWritten | api/api_v1/endpoints/labeledText_api.py:225-234 | the read as written fails iff `end` is negative outside the `-1, -1` sentinel |
| LabeledText.SentinelKeepsOnlyLast | api/api_v1/endpoints/labeledText_api.py:225-234 | as written, the sentinel returns only the last record, never the whole list of two or more |
| LabeledText.SentinelCounterexample | api/api_v1/endpoints/labeledText_api.py:225-234 | three records read with the sentinel: one comes back |
| LabeledText.SentinelReadsOnlyLast | api/api_v1/endpoints/labeledText_api.py:225-234 | `get_labeled_data` with the sentinel returns only the view of the last record using the label |
| LabeledText.Page | api/api_v1/endpoints/labeledText_api.py:225-234 | the corrected read fails iff `end` is negative outside the sentinel, and the sentinel returns every record |
| LabeledText.PageFixesOnlySentinel | api/api_v1/endpoints/labeledText_api.py:225-234 | the corrected read agrees with the read as written everywhere except at the sentinel |
| LabeledText.PageWindow | api/api_v1/endpoints/labeledText_api.py:233-234 | for any start and a non-negative end, both reads return exactly the records from the normalised start up to `end` cut at the number of records, a negative start counting back from that cut |
| LabeledText.View | api/api_v1/endpoints/labeledText_api.py:229-231 | a view keeps the record's id and has words and tokens iff detail is asked |
| LabeledText.Views | api/api_v1/endpoints/labeledText_api.py:229-235 | one view per record, in order |
| LabeledText.Keep | api/api_v1/endpoints/labeledText_api.py:255-259 | a record is returned iff it is stored and matches, never more than are stored |
| LabeledText.KeepAllOrNone | api/api_v1/endpoints/labeledText_api.py:255-259 | every record is returned when all match, none when none does |
| LabeledText.KeepAppend | api/api_v1/endpoints/labeledText_api.py:255-259 | filtering distributes over concatenation, so the kept records stay in store order |
| LabeledText.KeepMonotone | api/api_v1/endpoints/labeledText_api.py:118-123 | a wider query matches at least as many records |
| LabeledText.Matching | api/api_v1/endpoints/labeledText_api.py:229 | a record matches iff some word carries a wanted label |
| LabeledText.GetLabeledData | api/api_v1/endpoints/labeledText_api.py:219-240 | the result is the page, as the endpoint computes it, of the views of the records using the label in store order; it fails iff `end` is negative outside the sentinel; every returned view is of a stored record using the label |
| LabeledText.GetLabeledDataByFilter | api/api_v1/endpoints/labeledText_api.py:245-266 | the result is the page, as the endpoint computes it, of the views of the records the filter matches in store order; it fails iff `end` is negative outside the sentinel; every returned view is of a stored record the filter matches |
| LabeledText.GetLabelByName | api/api_v1/endpoints/labeledText_api.py:104-125 | 404 with its message iff the name is unknown; otherwise the stored label with the number of records using it or a label it inherits |
| LabeledText.DataCountCoversOwnRecords | api/api_v1/endpoints/labeledText_api.py:118-125 | the data count is at least the number of records `get_labeled_data` finds for the name alone |

## Left out

- Tensors and PyTorch numerics are not modelled. This covers the forward pass, the loss, `backward`, the optimizer, device moves, `empty_cache`, and model loading and saving. One pass is the oracle `attempt`, which yields a loss or raises with a message.
- A row's label tensor is not sliced down to the label index. The label index is passed to the pass oracle instead.
- `get_training_dataframe` and `NER_Dataset_for_Adapter` are not part of this model. The dataset builder is the oracle `build`. It yields the samples, the positive label and the label map, or fails. The corpus is an input, loaded once before the loop, as the source does.
- Scheduler.HandleJob: log messages are kept as their parameters, not their text, and tracebacks are the oracle `traceOf`. `print` output is not modelled.
- Scheduler.HandleJob: a label missing at snapshot time is modelled as one error path. In the source it is a `TypeError` on the `find_one` result, after the label update has matched nothing.
- Scheduler.RunScheduler: `KeyboardInterrupt` and process exit codes are not modelled. The model returns `ExitedCleanly` or `ErrorRaised` instead of exiting.
- Scheduler.TrainJob: on failure the job and its label stay "training". Training sets that status before the failure, and nothing resets it, so such a job is selected again on the next start.
- Epochs.TrainEpochs: the epoch count is a `nat`. A negative `epochs` in a stored job is outside the model.
- Epochs.TrainBatch: runs the corrected worker `TrainSplitting`, not the as-written one, which duplicates half-batches and can stall (see Findings); `AutoAdjust.TrainAutoAdjust` models the as-written worker on its own.
- Epochs.TrainEpoch: trains its batches with the corrected worker, through `TrainBatch`.
- Epochs.TrainEpochs: trains its batches with the corrected worker, through `TrainBatch`.
- Scheduler.TrainJob: trains with the corrected worker, through `TrainEpochs`.
- Scheduler.RunScheduler: jobs submitted by the API while the loop runs are not modelled. The loop's termination measure is the queue length, so termination is proved only for a store that no other process changes during the run.
- AutoAdjust.TrainAutoAdjust: the worker as written need not terminate, so its model runs at most `fuel` iterations and reports `Stalled` when they are spent. The worker the epoch loop uses is the corrected `TrainSplitting`.
- The store is not a map from object id to record. Jobs and labelled texts are sequences in insertion order, because the stable sort's tie-break and `find`'s result order depend on that order. Labels are a map keyed by name, since names are unique.
- The store's regular-expression and filter evaluation is not modelled beyond the `training|waiting` substring match and the `$in` label query. A custom filter is the oracle `matches`.
- LabeledText.ToList: the cursor's `to_list(n)` is modelled as the first n records. `None` returns all and a negative n fails. Motor's own code is not part of this model.
- LabeledText.DefineNewLabel: the `error_msg` text of a failed insert is not returned. The failure itself is the input `insertError`.
- LabeledText.UpdateLabeledData: an insert that raises part-way, which gives HTTP 500 after some records were stored, is not modelled. The two clock readings, the object ids and the modification-time stamp are inputs.
- LabeledText.GetLabelByName: the auto-generated description string is not modelled.
- LabeledText.GetLabeledData: the `label_name` default `None` is not modelled. The model takes a name.
- `convert_mongo_id` is not part of this model. A view carries the record's id as a string.
- The tokenizer is an uninterpreted function from string to token strings. RoBERTa's rules are not modelled.
- `get_all_label`, `get_labeled_data_by_id` and `delete_labeled_data_by_id` are not modelled; they are single store calls.
- `start.py`, which handles process launching and signal forwarding, is not part of this model. Neither is `template_predict.py`, a wrapper around a model call.
- Not claimed as a finding: the attention mask treats any token id 0 as padding, so a real token with id 0 gets mask 0. `MaskRowSumIsLength` states its result only for rows without a zero id.

## Findings

| source | as written | input that shows it | evidently intended | confidence | as-written member | corrected member |
|---|---|---|---|---|---|---|
| trainer/NER_trainer.py:127-131 | on out-of-memory every piece is replaced by two copies of its first floor(L/2) rows | batch [10, 20] on a device that runs out of memory on two rows: [10] is trained twice, row 20 never | each piece split into its first and its second half, so every row is trained once | high, not executed | AutoAdjust.DuplicatedHalvesLoseRows | AutoAdjust.TrainSplitting |
| trainer/NER_trainer.py:119-121 | a one-row piece that runs out of memory stays at the head and is retried with no limit | any row that always runs out of memory: the loop never ends | a piece that cannot be split further raises | high, not executed | AutoAdjust.SingleRowOomStalls | AutoAdjust.TrainSplitting |
| api/api_v1/endpoints/labeledText_api.py:225 | the sentinel `start == end == -1` resets `end` to `None` but leaves `start` at -1, so `result[-1:]` is returned | three stored records read with start = end = -1: only the third comes back | the sentinel returns every record (start reset to 0) | high, not executed | LabeledText.SentinelKeepsOnlyLast | LabeledText.Page |
