/**
 * The training batch of the sequence-to-sequence editor: pad masks over the
 * padded token matrices, the teacher-forcing shift of the target, and the
 * number of target tokens the loss is normalised by.
 *
 * A token tensor of shape (rows, width) is a `Matrix`, one row per sequence;
 * a boolean tensor is a `BoolMatrix`, and the mask with an extra middle
 * dimension of size one (`unsqueeze(-2)`) is a `seq<BoolMatrix>`.
 */
module Seq2SeqBatch {
  import opened Wrappers

  /** The default `pad_index` of the constructor. */
  const DEFAULT_PAD_INDEX: int := 0

  type Matrix = seq<seq<int>>
  type BoolMatrix = seq<seq<bool>>

  /** Every row has `width` entries, as in a tensor of that width. */
  ghost predicate Rectangular(m: Matrix, width: nat)
  {
    forall i :: 0 <= i < |m| ==> |m[i]| == width
  }

  // ---------------------------------------------------------------------
  // Pad masks
  // ---------------------------------------------------------------------

  /** `row != pad_index`, entry by entry. */
  function NotPadRow(row: seq<int>, padIndex: int): (r: seq<bool>)
    ensures |r| == |row|
    ensures forall j :: 0 <= j < |row| ==> (r[j] <==> row[j] != padIndex)
  {
    if |row| == 0 then [] else [row[0] != padIndex] + NotPadRow(row[1..], padIndex)
  }

  /** `m != pad_index`: a mask of the same shape, true exactly at the tokens that are not padding. */
  function NotPad(m: Matrix, padIndex: int): (r: BoolMatrix)
    ensures |r| == |m|
    ensures forall i :: 0 <= i < |m| ==> |r[i]| == |m[i]|
    ensures forall i, j :: 0 <= i < |m| && 0 <= j < |m[i]| ==> (r[i][j] <==> m[i][j] != padIndex)
  {
    if |m| == 0 then [] else [NotPadRow(m[0], padIndex)] + NotPad(m[1..], padIndex)
  }

  /** `unsqueeze(-2)` of a (rows, width) mask: shape (rows, 1, width), row i wrapped on its own. */
  function Unsqueeze(mask: BoolMatrix): (r: seq<BoolMatrix>)
    ensures |r| == |mask|
    ensures forall i :: 0 <= i < |mask| ==> r[i] == [mask[i]]
  {
    if |mask| == 0 then [] else [[mask[0]]] + Unsqueeze(mask[1..])
  }

  /** The source and diff masks: `(m != pad_index).unsqueeze(-2)`. */
  function PadMask(m: Matrix, padIndex: int): seq<BoolMatrix>
  {
    Unsqueeze(NotPad(m, padIndex))
  }

  /** A source or diff mask has shape (rows, 1, width) and is true exactly at the non-pad tokens. */
  lemma PadMaskSpec(m: Matrix, padIndex: int)
    ensures |PadMask(m, padIndex)| == |m|
    ensures forall i :: 0 <= i < |m| ==>
      |PadMask(m, padIndex)[i]| == 1 && |PadMask(m, padIndex)[i][0]| == |m[i]|
    ensures forall i, j :: 0 <= i < |m| && 0 <= j < |m[i]| ==>
      (PadMask(m, padIndex)[i][0][j] <==> m[i][j] != padIndex)
  {
    var mask := NotPad(m, padIndex);
    assert forall i :: 0 <= i < |m| ==> PadMask(m, padIndex)[i] == [mask[i]];
  }

  // ---------------------------------------------------------------------
  // Teacher-forcing shift
  // ---------------------------------------------------------------------

  /** `trg[:, :-1]`: every row without its last entry (an empty row stays empty). */
  function DecoderInput(m: Matrix): (r: Matrix)
    ensures |r| == |m|
    ensures forall i :: 0 <= i < |m| ==> |r[i]| == (if |m[i]| == 0 then 0 else |m[i]| - 1)
    ensures forall i, j :: 0 <= i < |m| && 0 <= j < |r[i]| ==> r[i][j] == m[i][j]
  {
    if |m| == 0 then []
    else [if |m[0]| == 0 then [] else m[0][..|m[0]| - 1]] + DecoderInput(m[1..])
  }

  /** `trg[:, 1:]`: every row without its first entry (an empty row stays empty). */
  function GoldOutput(m: Matrix): (r: Matrix)
    ensures |r| == |m|
    ensures forall i :: 0 <= i < |m| ==> |r[i]| == (if |m[i]| == 0 then 0 else |m[i]| - 1)
    ensures forall i, j :: 0 <= i < |m| && 0 <= j < |r[i]| ==> r[i][j] == m[i][j + 1]
  {
    if |m| == 0 then []
    else [if |m[0]| == 0 then [] else m[0][1..]] + GoldOutput(m[1..])
  }

  /** A target of width W gives decoder input and gold output of width W-1 (0 for W = 0) with the same rows. */
  lemma ShiftShape(m: Matrix, width: nat)
    requires Rectangular(m, width)
    ensures var w' := if width == 0 then 0 else width - 1;
      Rectangular(DecoderInput(m), w') && Rectangular(GoldOutput(m), w')
  {
  }

  /** Nothing is lost by the shift: each target row is its decoder input plus its last token, and its first token plus its gold output. */
  lemma {:induction false} ShiftReconstructs(m: Matrix, i: nat)
    requires i < |m| && |m[i]| > 0
    ensures m[i] == DecoderInput(m)[i] + [m[i][|m[i]| - 1]]
    ensures m[i] == [m[i][0]] + GoldOutput(m)[i]
  {
    var row, d, y := m[i], DecoderInput(m)[i], GoldOutput(m)[i];
    var last := row[|row| - 1];
    assert |d + [last]| == |row|;
    forall k | 0 <= k < |row|
      ensures (d + [last])[k] == row[k]
    {
      if k < |d| {
        assert d[k] == row[k];
      }
    }
    assert |[row[0]] + y| == |row|;
    forall k | 0 <= k < |row|
      ensures ([row[0]] + y)[k] == row[k]
    {
      if k > 0 {
        assert y[k - 1] == row[k];
      }
    }
  }

  /** Teacher forcing: the token the decoder is fed at step j+1 is the gold token of step j. */
  lemma ShiftAligned(m: Matrix, i: nat, j: nat)
    requires i < |m| && j + 1 < |DecoderInput(m)[i]|
    ensures DecoderInput(m)[i][j + 1] == GoldOutput(m)[i][j]
  {
  }

  // ---------------------------------------------------------------------
  // Token count
  // ---------------------------------------------------------------------

  /** The non-pad entries of a row. */
  function CountNonPad(row: seq<int>, padIndex: int): (r: nat)
    ensures r <= |row|
  {
    if |row| == 0 then 0 else (if row[0] != padIndex then 1 else 0) + CountNonPad(row[1..], padIndex)
  }

  /** `(m != pad_index).sum()`: the non-pad entries of the whole matrix. */
  function NTokens(m: Matrix, padIndex: int): nat
  {
    if |m| == 0 then 0 else CountNonPad(m[0], padIndex) + NTokens(m[1..], padIndex)
  }

  /** The true entries of a mask row. */
  function CountTrueRow(row: seq<bool>): nat
  {
    if |row| == 0 then 0 else (if row[0] then 1 else 0) + CountTrueRow(row[1..])
  }

  /** The true entries of a mask. */
  function CountTrue(mask: BoolMatrix): nat
  {
    if |mask| == 0 then 0 else CountTrueRow(mask[0]) + CountTrue(mask[1..])
  }

  /** The entries of a matrix. */
  function Entries(m: Matrix): nat
  {
    if |m| == 0 then 0 else |m[0]| + Entries(m[1..])
  }

  lemma {:induction false} EntriesRectangular(m: Matrix, width: nat)
    requires Rectangular(m, width)
    ensures Entries(m) == |m| * width
    decreases |m|
  {
    if |m| > 0 {
      EntriesRectangular(m[1..], width);
    }
  }

  lemma {:induction false} NTokensAtMostEntries(m: Matrix, padIndex: int)
    ensures NTokens(m, padIndex) <= Entries(m)
    decreases |m|
  {
    if |m| > 0 {
      NTokensAtMostEntries(m[1..], padIndex);
    }
  }

  /** `ntokens` of a target of width W is at most rows * (W - 1). */
  lemma NTokensBound(m: Matrix, width: nat, padIndex: int)
    requires Rectangular(m, width) && width > 0
    ensures NTokens(GoldOutput(m), padIndex) <= |m| * (width - 1)
  {
    ShiftShape(m, width);
    NTokensAtMostEntries(GoldOutput(m), padIndex);
    EntriesRectangular(GoldOutput(m), width - 1);
  }

  /** The non-pad entries of a row are the true entries of its mask. */
  lemma {:induction false} CountNonPadIsMaskCount(row: seq<int>, padIndex: int)
    ensures CountNonPad(row, padIndex) == CountTrueRow(NotPadRow(row, padIndex))
    decreases |row|
  {
    if |row| > 0 {
      CountNonPadIsMaskCount(row[1..], padIndex);
      assert NotPadRow(row, padIndex)[1..] == NotPadRow(row[1..], padIndex);
    }
  }

  /** `ntokens` is the number of true entries of `trg_mask`. */
  lemma {:induction false} NTokensIsMaskCount(m: Matrix, padIndex: int)
    ensures NTokens(m, padIndex) == CountTrue(NotPad(m, padIndex))
    decreases |m|
  {
    if |m| > 0 {
      CountNonPadIsMaskCount(m[0], padIndex);
      NTokensIsMaskCount(m[1..], padIndex);
      assert NotPad(m, padIndex)[1..] == NotPad(m[1..], padIndex);
    }
  }

  /** A row holding `len` tokens followed only by padding, as a padded batch stores a sequence of that length. */
  ghost predicate PaddedRow(row: seq<int>, len: nat, padIndex: int)
  {
    && len <= |row|
    && (forall j :: 0 <= j < len ==> row[j] != padIndex)
    && (forall j :: len <= j < |row| ==> row[j] == padIndex)
  }

  lemma {:induction false} CountPaddedRow(row: seq<int>, len: nat, padIndex: int)
    requires PaddedRow(row, len, padIndex)
    ensures CountNonPad(row, padIndex) == len
    decreases |row|
  {
    if |row| > 0 {
      CountPaddedRow(row[1..], if len == 0 then 0 else len - 1, padIndex);
    }
  }

  function Sum(xs: seq<nat>): nat
  {
    if |xs| == 0 then 0 else xs[0] + Sum(xs[1..])
  }

  /**
   * For a properly padded target whose every sequence has at least one token,
   * `ntokens` is the sum of the target lengths minus one per sequence: the
   * first token of each sequence is never a gold output.
   */
  lemma {:induction false} NTokensOfPaddedTarget(m: Matrix, lengths: seq<nat>, padIndex: int)
    requires |lengths| == |m|
    requires forall i :: 0 <= i < |m| ==> lengths[i] >= 1 && PaddedRow(m[i], lengths[i], padIndex)
    ensures NTokens(GoldOutput(m), padIndex) + |m| == Sum(lengths)
    decreases |m|
  {
    if |m| > 0 {
      var y := GoldOutput(m);
      assert y[0] == m[0][1..];
      CountPaddedRow(m[0][1..], lengths[0] - 1, padIndex);
      assert y[1..] == GoldOutput(m[1..]);
      NTokensOfPaddedTarget(m[1..], lengths[1..], padIndex);
    }
  }

  // ---------------------------------------------------------------------
  // The batch object
  // ---------------------------------------------------------------------

  /** A padded token tensor with its per-row lengths, as the iterator hands them over. */
  type Padded = (Matrix, seq<int>)

  class Batch {
    var src: Matrix
    var srcLengths: seq<int>
    var srcMask: seq<BoolMatrix>
    var nseqs: nat

    var diffAlignment: Matrix
    var diffAlignmentLengths: seq<int>
    var diffAlignmentMask: seq<BoolMatrix>
    var diffPrev: Matrix
    var diffPrevLengths: seq<int>
    var diffPrevMask: seq<BoolMatrix>
    var diffUpdated: Matrix
    var diffUpdatedLengths: seq<int>
    var diffUpdatedMask: seq<BoolMatrix>

    /** `None` stands for Python's `None` when the batch has no target. */
    var trg: Option<Matrix>
    var trgY: Option<Matrix>
    var trgMask: Option<BoolMatrix>
    var trgLengths: Option<seq<int>>
    var ntokens: Option<nat>

    /** `Batch.__init__`; `padIndex` is `DEFAULT_PAD_INDEX` unless the caller passes another. */
    constructor (source: Padded, target: Option<Padded>, alignment: Padded, prev: Padded, updated: Padded,
                 padIndex: int := DEFAULT_PAD_INDEX)
      ensures src == source.0 && srcLengths == source.1
      ensures srcMask == PadMask(source.0, padIndex) && nseqs == |source.0|
      ensures diffAlignment == alignment.0 && diffAlignmentLengths == alignment.1
      ensures diffAlignmentMask == PadMask(alignment.0, padIndex)
      ensures diffPrev == prev.0 && diffPrevLengths == prev.1 && diffPrevMask == PadMask(prev.0, padIndex)
      ensures diffUpdated == updated.0 && diffUpdatedLengths == updated.1
      ensures diffUpdatedMask == PadMask(updated.0, padIndex)
      ensures target.None? ==> trg.None? && trgY.None? && trgMask.None? && trgLengths.None? && ntokens.None?
      ensures target.Some? ==>
        && trg == Some(DecoderInput(target.value.0))
        && trgY == Some(GoldOutput(target.value.0))
        && trgMask == Some(NotPad(GoldOutput(target.value.0), padIndex))
        && trgLengths == Some(target.value.1)
        && ntokens == Some(NTokens(GoldOutput(target.value.0), padIndex))
    {
      diffAlignment, diffAlignmentLengths := alignment.0, alignment.1;
      diffAlignmentMask := PadMask(alignment.0, padIndex);
      diffPrev, diffPrevLengths := prev.0, prev.1;
      diffPrevMask := PadMask(prev.0, padIndex);
      diffUpdated, diffUpdatedLengths := updated.0, updated.1;
      diffUpdatedMask := PadMask(updated.0, padIndex);

      src := source.0;
      srcLengths := source.1;
      srcMask := PadMask(source.0, padIndex);
      nseqs := |source.0|;

      trg, trgY, trgMask, trgLengths, ntokens := None, None, None, None, None;

      if target.Some? {
        var (t, lengths) := target.value;
        trg := Some(DecoderInput(t));
        trgLengths := Some(lengths);
        var y := GoldOutput(t);
        trgY := Some(y);
        trgMask := Some(NotPad(y, padIndex));
        ntokens := Some(NTokens(y, padIndex));
      }
    }
  }
}
