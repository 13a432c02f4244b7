/** The batch collator `create_mini_batch`: right-pads the token, segment and
    label sequences of a batch with 0 and derives the attention mask. */
module Collate {
  import opened Common

  /** One dataset item: token ids, segment ids and (optionally) per-token labels. */
  datatype Sample = Sample(tokens: seq<int>, segments: seq<int>, labels: Option<seq<int>>)

  /** The four padded grids handed to the trainer; `labels` is None when the
      first sample carries no labels. */
  datatype MiniBatch = MiniBatch(
    tokens: seq<seq<int>>,
    segments: seq<seq<int>>,
    masks: seq<seq<int>>,
    labels: Option<seq<seq<int>>>)

  /** `samples[0]` on an empty list, or a missing label sequence handed to the
      padding of the label column. */
  datatype CollateError = EmptyBatch | MissingLabels

  datatype CollateResult = Collated(batch: MiniBatch) | Failed(error: CollateError)

  /** The length of the longest row (0 for no rows). */
  function MaxLen(rows: seq<seq<int>>): (m: nat)
    ensures forall k | 0 <= k < |rows| :: |rows[k]| <= m
    ensures |rows| > 0 ==> exists k | 0 <= k < |rows| :: |rows[k]| == m
    ensures |rows| == 0 ==> m == 0
  {
    if rows == [] then 0
    else
      var rest := MaxLen(rows[1..]);
      assert forall k | 1 <= k < |rows| :: rows[k] == rows[1..][k - 1];
      if |rows[0]| >= rest then |rows[0]| else rest
  }

  /** `s` followed by zeros up to width `n`. */
  function PadRight(s: seq<int>, n: nat): (r: seq<int>)
    requires |s| <= n
    ensures |r| == n && r[..|s|] == s
    ensures forall j | |s| <= j < n :: r[j] == 0
  {
    s + seq(n - |s|, _ => 0)
  }

  /** `pad_sequence(rows, batch_first=True)`: one row per input, every row
      right-padded with 0 to the longest length. */
  function PadSequence(rows: seq<seq<int>>): (grid: seq<seq<int>>)
    ensures |grid| == |rows|
    ensures forall k | 0 <= k < |rows| :: grid[k] == PadRight(rows[k], MaxLen(rows))
  {
    var width := MaxLen(rows);
    seq(|rows|, k requires 0 <= k < |rows| => PadRight(rows[k], width))
  }

  /** `zeros(shape).masked_fill(tokens != 0, 1)`. */
  function MaskOf(grid: seq<seq<int>>): (mask: seq<seq<int>>)
    ensures |mask| == |grid|
    ensures forall k | 0 <= k < |grid| :: |mask[k]| == |grid[k]|
  {
    seq(|grid|, k requires 0 <= k < |grid| =>
      seq(|grid[k]|, j requires 0 <= j < |grid[k]| => if grid[k][j] != 0 then 1 else 0))
  }

  function TokenColumn(samples: seq<Sample>): (rows: seq<seq<int>>)
    ensures |rows| == |samples|
    ensures forall k | 0 <= k < |samples| :: rows[k] == samples[k].tokens
  {
    seq(|samples|, k requires 0 <= k < |samples| => samples[k].tokens)
  }

  function SegmentColumn(samples: seq<Sample>): (rows: seq<seq<int>>)
    ensures |rows| == |samples|
    ensures forall k | 0 <= k < |samples| :: rows[k] == samples[k].segments
  {
    seq(|samples|, k requires 0 <= k < |samples| => samples[k].segments)
  }

  predicate AllLabelled(samples: seq<Sample>)
  {
    forall k | 0 <= k < |samples| :: samples[k].labels.Some?
  }

  function LabelColumn(samples: seq<Sample>): (rows: seq<seq<int>>)
    requires AllLabelled(samples)
    ensures |rows| == |samples|
    ensures forall k | 0 <= k < |samples| :: rows[k] == samples[k].labels.value
  {
    seq(|samples|, k requires 0 <= k < |samples| => samples[k].labels.value)
  }

  /** The batches `create_mini_batch` collates without raising. */
  predicate Collatable(samples: seq<Sample>)
  {
    |samples| > 0 && (samples[0].labels.Some? ==> AllLabelled(samples))
  }

  /** `create_mini_batch(samples)`: collates exactly the collatable batches,
      into grids with one row per sample. */
  function CreateMiniBatch(samples: seq<Sample>): (r: CollateResult)
    ensures r.Collated? <==> Collatable(samples)
    ensures r.Collated? ==>
      && |r.batch.tokens| == |samples| && |r.batch.segments| == |samples| && |r.batch.masks| == |samples|
      && (r.batch.labels.Some? <==> samples[0].labels.Some?)
      && (r.batch.labels.Some? ==> |r.batch.labels.value| == |samples|)
  {
    if |samples| == 0 then Failed(EmptyBatch)
    else if samples[0].labels.Some? && !AllLabelled(samples) then Failed(MissingLabels)
    else
      var tokens := PadSequence(TokenColumn(samples));
      var labels := if samples[0].labels.Some? then Some(PadSequence(LabelColumn(samples))) else None;
      Collated(MiniBatch(tokens, PadSequence(SegmentColumn(samples)), MaskOf(tokens), labels))
  }

  /** Collation fails only on an empty batch, or when the first sample is
      labelled and a later one is not. */
  lemma CollateFailsOnlyOn(samples: seq<Sample>)
    ensures CreateMiniBatch(samples).Failed? <==>
      |samples| == 0 || (samples[0].labels.Some? && !AllLabelled(samples))
    ensures CreateMiniBatch(samples) == Failed(EmptyBatch) <==> |samples| == 0
    ensures CreateMiniBatch(samples).Collated? <==> Collatable(samples)
  {
  }

  /** The token grid is N x max(L_i); row k is sample k's tokens right-padded
      with 0, so the input order is kept. The segment grid is built the same way
      from the segment ids. */
  lemma CollatedGrids(samples: seq<Sample>, k: nat, j: nat)
    requires Collatable(samples)
    requires k < |samples|
    ensures var b := CreateMiniBatch(samples).batch;
      && |b.tokens| == |samples| && |b.segments| == |samples|
      && |b.tokens[k]| == MaxLen(TokenColumn(samples))
      && b.tokens[k][..|samples[k].tokens|] == samples[k].tokens
      && (|samples[k].tokens| <= j < |b.tokens[k]| ==> b.tokens[k][j] == 0)
      && |b.segments[k]| == MaxLen(SegmentColumn(samples))
      && b.segments[k][..|samples[k].segments|] == samples[k].segments
      && (|samples[k].segments| <= j < |b.segments[k]| ==> b.segments[k][j] == 0)
  {
  }

  /** The grid width is attained by some sample: no column is all padding. */
  lemma WidthIsLongestSample(samples: seq<Sample>)
    requires Collatable(samples)
    ensures var b := CreateMiniBatch(samples).batch;
      (forall k | 0 <= k < |samples| :: |samples[k].tokens| <= |b.tokens[k]|) &&
      exists k | 0 <= k < |samples| :: |samples[k].tokens| == |b.tokens[k]|
  {
    var rows := TokenColumn(samples);
    var k :| 0 <= k < |rows| && |rows[k]| == MaxLen(rows);
    assert |samples[k].tokens| == |CreateMiniBatch(samples).batch.tokens[k]|;
  }

  /** A mask cell is 1 exactly where the padded token cell is non-zero, and 0
      otherwise; the mask has the token grid's shape. */
  lemma MaskMatchesTokens(samples: seq<Sample>, k: nat, j: nat)
    requires Collatable(samples)
    requires k < |samples|
    ensures var b := CreateMiniBatch(samples).batch;
      && |b.masks| == |b.tokens| && |b.masks[k]| == |b.tokens[k]|
      && (j < |b.tokens[k]| ==>
            (b.masks[k][j] == 1 <==> b.tokens[k][j] != 0) &&
            (b.masks[k][j] == 0 <==> b.tokens[k][j] == 0))
  {
  }

  /** Labels are padded exactly when the first sample has them; otherwise the
      fourth output is None. */
  lemma LabelsPaddedIffFirstLabelled(samples: seq<Sample>)
    requires Collatable(samples)
    ensures var b := CreateMiniBatch(samples).batch;
      && (b.labels.Some? <==> samples[0].labels.Some?)
      && (b.labels.Some? ==>
            |b.labels.value| == |samples| &&
            forall k | 0 <= k < |samples| ::
              && |b.labels.value[k]| == MaxLen(LabelColumn(samples))
              && b.labels.value[k] == PadRight(samples[k].labels.value, |b.labels.value[k]|))
  {
  }

  /** The number of ones in a row. */
  function Ones(row: seq<int>): nat
  {
    if row == [] then 0 else (if row[0] == 1 then 1 else 0) + Ones(row[1..])
  }

  predicate NoZero(s: seq<int>)
  {
    forall i | 0 <= i < |s| :: s[i] != 0
  }

  /** Counting a mask row: non-zero cells count once, zero cells not at all. */
  lemma {:induction false} OnesOfPaddedMask(s: seq<int>, n: nat)
    requires NoZero(s) && |s| <= n
    ensures Ones(seq(n, j requires 0 <= j < n => if PadRight(s, n)[j] != 0 then 1 else 0)) == |s|
  {
    var row := seq(n, j requires 0 <= j < n => if PadRight(s, n)[j] != 0 then 1 else 0);
    if n == 0 {
      assert row == [];
    } else if |s| == 0 {
      forall j | 0 <= j < n ensures row[j] == 0 {
        assert PadRight(s, n)[j] == 0;
      }
      OnesOfZeros(row);
    } else {
      assert PadRight(s, n)[..|s|][0] == s[0];
      var tail := seq(n - 1, j requires 0 <= j < n - 1 => if PadRight(s[1..], n - 1)[j] != 0 then 1 else 0);
      assert row[1..] == tail by {
        forall j | 0 <= j < n - 1 ensures row[1..][j] == tail[j] {
          assert PadRight(s, n)[j + 1] == PadRight(s[1..], n - 1)[j] by {
            if j + 1 < |s| {
              assert PadRight(s, n)[..|s|][j + 1] == s[j + 1];
              assert PadRight(s[1..], n - 1)[..|s| - 1][j] == s[1..][j];
            }
          }
        }
      }
      OnesOfPaddedMask(s[1..], n - 1);
    }
  }

  lemma {:induction false} OnesOfZeros(row: seq<int>)
    requires forall j | 0 <= j < |row| :: row[j] == 0
    ensures Ones(row) == 0
  {
    if row != [] {
      OnesOfZeros(row[1..]);
    }
  }

  /** When no real token id is 0, the ones of mask row k count sample k's
      tokens: the mask sums recover every L_i. */
  lemma MaskRowSumIsLength(samples: seq<Sample>, k: nat)
    requires Collatable(samples)
    requires k < |samples| && NoZero(samples[k].tokens)
    ensures Ones(CreateMiniBatch(samples).batch.masks[k]) == |samples[k].tokens|
  {
    var rows := TokenColumn(samples);
    var n := MaxLen(rows);
    var grid := PadSequence(rows);
    assert grid[k] == PadRight(samples[k].tokens, n);
    var row := seq(n, j requires 0 <= j < n => if PadRight(samples[k].tokens, n)[j] != 0 then 1 else 0);
    assert MaskOf(grid)[k] == row;
    OnesOfPaddedMask(samples[k].tokens, n);
  }
}
