/**
 * From token ids to pooled vectors: padding and masking, the flat batch layout, reshaping, and masked
 * mean pooling. The inference session is a function from the flat inputs to the flat hidden states.
 */
module Pooling {
  import opened Vectors

  const MAX_LENGTH := 512
  const EMBEDDING_DIM := 512

  // ----- Flat layout -----

  /** The entry of the flat hidden states for text `b`, position `s`, component `d`. */
  function HiddenAt(flat: seq<real>, len: nat, dim: nat, b: nat, s: nat, d: nat): real
  {
    var i := (b * len + s) * dim + d;
    if i < |flat| then flat[i] else 0.0
  }

  /** The entry of the flat mask for text `b`, position `s`. */
  function MaskAt(flat: seq<int>, len: nat, b: nat, s: nat): int
  {
    var i := b * len + s;
    if i < |flat| then flat[i] else 0
  }

  lemma CellInRow(rows: nat, width: nat, r: nat, c: nat)
    requires r < rows && c < width
    ensures r * width + c < rows * width
  {
    var left := rows - r - 1;
    assert left * width >= 0;
    assert rows * width == (r + 1 + left) * width == r * width + width + left * width;
  }

  lemma IndexInRange(batch: nat, len: nat, dim: nat, b: nat, s: nat, d: nat)
    requires b < batch && s < len && d < dim
    ensures b * len + s < batch * len
    ensures (b * len + s) * dim + d < batch * len * dim
  {
    CellInRow(batch, len, b, s);
    CellInRow(batch * len, dim, b * len + s, d);
  }

  // ----- What the flat index means -----

  /** The rows one after the other. */
  ghost function Concat<T>(rows: seq<seq<T>>): seq<T>
  {
    if |rows| == 0 then [] else rows[0] + Concat(rows[1..])
  }

  lemma {:induction false} ConcatAt<T>(rows: seq<seq<T>>, width: nat, r: nat, c: nat)
    requires (forall k :: 0 <= k < |rows| ==> |rows[k]| == width) && r < |rows| && c < width
    ensures 0 <= r * width + c < |Concat(rows)| && Concat(rows)[r * width + c] == rows[r][c]
  {
    if r > 0 {
      ConcatAt(rows[1..], width, r - 1, c);
      assert r * width == (r - 1) * width + width;
    }
  }

  lemma {:induction false} ConcatKeeps<T>(rows: seq<seq<seq<T>>>, width: nat)
    requires forall b, s :: 0 <= b < |rows| && 0 <= s < |rows[b]| ==> |rows[b][s]| == width
    ensures forall k :: 0 <= k < |Concat(rows)| ==> |Concat(rows)[k]| == width
  {
    if |rows| > 0 {
      ConcatKeeps(rows[1..], width);
    }
  }

  /** The mask in row-major order, each text after the one before it, is read back cell by cell. */
  lemma MaskAtReadsRows(rows: seq<seq<int>>, len: nat, b: nat, s: nat)
    requires (forall k :: 0 <= k < |rows| ==> |rows[k]| == len) && b < |rows| && s < len
    ensures MaskAt(Concat(rows), len, b, s) == rows[b][s]
  {
    ConcatAt(rows, len, b, s);
  }

  /** So are the hidden states: text after text, within a text position after position. */
  lemma HiddenAtReadsStates(states: seq<seq<seq<real>>>, len: nat, dim: nat, b: nat, s: nat, d: nat)
    requires forall k :: 0 <= k < |states| ==> |states[k]| == len
    requires forall k, p :: 0 <= k < |states| && 0 <= p < |states[k]| ==> |states[k][p]| == dim
    requires b < |states| && s < len && d < dim
    ensures HiddenAt(Concat(Concat(states)), len, dim, b, s, d) == states[b][s][d]
  {
    ConcatKeeps(states, dim);
    ConcatAt(states, len, b, s);
    ConcatAt(Concat(states), dim, b * len + s, d);
  }

  // ----- Padding -----

  function Covered(tokens: seq<int>, maxLen: nat): (n: nat)
    ensures n <= maxLen
  {
    if |tokens| > maxLen then maxLen else |tokens|
  }

  method PadAndMask(ids: seq<int>, maxLen: nat) returns (fullIDs: array<int>, fullMask: array<int>)
    ensures fullIDs.Length == maxLen && fullMask.Length == maxLen && fresh(fullIDs) && fresh(fullMask)
    ensures forall i :: 0 <= i < maxLen ==> fullIDs[i] == if i < Covered(ids, maxLen) then ids[i] else 0
    ensures forall i :: 0 <= i < maxLen ==> fullMask[i] == if i < Covered(ids, maxLen) then 1 else 0
  {
    var seqLen := |ids|;
    if seqLen > maxLen {
      seqLen := maxLen;
    }
    fullIDs := new int[maxLen](_ => 0);
    fullMask := new int[maxLen](_ => 0);
    for i := 0 to seqLen
      invariant forall j :: 0 <= j < maxLen ==> fullIDs[j] == if j < i then ids[j] else 0
      invariant forall j :: 0 <= j < maxLen ==> fullMask[j] == if j < i then 1 else 0
    {
      fullIDs[i] := ids[i];
      fullMask[i] := 1;
    }
  }

  // ----- Reshaping -----

  method ReshapeHidden(flat: seq<real>, batch: nat, len: nat, dim: nat) returns (out: array3<real>)
    requires |flat| == batch * len * dim
    ensures out.Length0 == batch && out.Length1 == len && out.Length2 == dim && fresh(out)
    ensures forall b, s, d :: 0 <= b < batch && 0 <= s < len && 0 <= d < dim ==>
            out[b, s, d] == HiddenAt(flat, len, dim, b, s, d)
  {
    out := new real[batch, len, dim]((_, _, _) => 0.0);
    for b := 0 to batch
      invariant forall b', s, d :: 0 <= b' < b && 0 <= s < len && 0 <= d < dim ==>
              out[b', s, d] == HiddenAt(flat, len, dim, b', s, d)
    {
      for s := 0 to len
        invariant forall b', s', d :: 0 <= b' < b && 0 <= s' < len && 0 <= d < dim ==>
                out[b', s', d] == HiddenAt(flat, len, dim, b', s', d)
        invariant forall s', d :: 0 <= s' < s && 0 <= d < dim ==> out[b, s', d] == HiddenAt(flat, len, dim, b, s', d)
      {
        CopyRow(flat, out, b, s);
      }
    }
  }

  /** Copies the slice of one position. */
  method CopyRow(flat: seq<real>, out: array3<real>, b: nat, s: nat)
    requires b < out.Length0 && s < out.Length1 && |flat| == out.Length0 * out.Length1 * out.Length2
    modifies out
    ensures forall d :: 0 <= d < out.Length2 ==> out[b, s, d] == HiddenAt(flat, out.Length1, out.Length2, b, s, d)
    ensures forall b', s', d ::
              0 <= b' < out.Length0 && 0 <= s' < out.Length1 && 0 <= d < out.Length2 && !(b' == b && s' == s) ==>
                out[b', s', d] == old(out[b', s', d])
  {
    var base := (b * out.Length1 + s) * out.Length2;
    for d := 0 to out.Length2
      invariant forall d' :: 0 <= d' < d ==> out[b, s, d'] == HiddenAt(flat, out.Length1, out.Length2, b, s, d')
      invariant forall b', s', d' ::
                  0 <= b' < out.Length0 && 0 <= s' < out.Length1 && 0 <= d' < out.Length2 && !(b' == b && s' == s) ==>
                    out[b', s', d'] == old(out[b', s', d'])
    {
      IndexInRange(out.Length0, out.Length1, out.Length2, b, s, d);
      out[b, s, d] := flat[base + d];
    }
  }

  method ReshapeMask(flat: seq<int>, batch: nat, len: nat) returns (out: array2<int>)
    requires |flat| == batch * len
    ensures out.Length0 == batch && out.Length1 == len && fresh(out)
    ensures forall b, s :: 0 <= b < batch && 0 <= s < len ==> out[b, s] == MaskAt(flat, len, b, s)
  {
    out := new int[batch, len]((_, _) => 0);
    for b := 0 to batch
      invariant forall b', s :: 0 <= b' < b && 0 <= s < len ==> out[b', s] == MaskAt(flat, len, b', s)
    {
      for s := 0 to len
        invariant forall b', s' :: 0 <= b' < b && 0 <= s' < len ==> out[b', s'] == MaskAt(flat, len, b', s')
        invariant forall s' :: 0 <= s' < s ==> out[b, s'] == MaskAt(flat, len, b, s')
      {
        CellInRow(batch, len, b, s);
        out[b, s] := flat[b * len + s];
      }
    }
  }

  // ----- Mean pooling -----

  ghost function WeightedSum(hidden: array3<real>, mask: array2<int>, b: nat, d: nat, n: nat): real
    requires b < hidden.Length0 && d < hidden.Length2 && n <= hidden.Length1
    requires mask.Length0 == hidden.Length0 && mask.Length1 == hidden.Length1
    reads hidden, mask
  {
    if n == 0 then 0.0
    else WeightedSum(hidden, mask, b, d, n - 1) + hidden[b, n - 1, d] * mask[b, n - 1] as real
  }

  ghost function WeightSum(mask: array2<int>, b: nat, n: nat): real
    requires b < mask.Length0 && n <= mask.Length1
    reads mask
  {
    if n == 0 then 0.0 else WeightSum(mask, b, n - 1) + mask[b, n - 1] as real
  }

  ghost function Pooled(hidden: array3<real>, mask: array2<int>, b: nat, d: nat): real
    requires b < hidden.Length0 && d < hidden.Length2
    requires mask.Length0 == hidden.Length0 && mask.Length1 == hidden.Length1
    reads hidden, mask
  {
    var n := hidden.Length1;
    if WeightSum(mask, b, n) > 0.0 then WeightedSum(hidden, mask, b, d, n) / WeightSum(mask, b, n)
    else WeightedSum(hidden, mask, b, d, n)
  }

  /** Adds one position's states, times its weight. */
  method AddPosition(hidden: array3<real>, mask: array2<int>, b: nat, s: nat, vec: array<real>)
    requires b < hidden.Length0 && mask.Length0 == hidden.Length0 && mask.Length1 == hidden.Length1
    requires s < hidden.Length1 && vec.Length == hidden.Length2
    requires forall d :: 0 <= d < vec.Length ==> vec[d] == WeightedSum(hidden, mask, b, d, s)
    modifies vec
    ensures forall d :: 0 <= d < vec.Length ==> vec[d] == WeightedSum(hidden, mask, b, d, s + 1)
  {
    var weight := mask[b, s] as real;
    for d := 0 to vec.Length
      invariant forall d' :: 0 <= d' < d ==> vec[d'] == WeightedSum(hidden, mask, b, d', s + 1)
      invariant forall d' :: d <= d' < vec.Length ==> vec[d'] == WeightedSum(hidden, mask, b, d', s)
    {
      vec[d] := vec[d] + hidden[b, s, d] * weight;
    }
  }

  /** One text: the loops over positions and components. */
  method PoolOne(hidden: array3<real>, mask: array2<int>, b: nat) returns (vec: array<real>)
    requires b < hidden.Length0 && mask.Length0 == hidden.Length0 && mask.Length1 == hidden.Length1
    ensures fresh(vec) && vec.Length == hidden.Length2
    ensures forall d :: 0 <= d < vec.Length ==> vec[d] == Pooled(hidden, mask, b, d)
  {
    vec := new real[hidden.Length2](_ => 0.0);
    var sum := 0.0;
    for s := 0 to hidden.Length1
      invariant sum == WeightSum(mask, b, s)
      invariant forall d :: 0 <= d < vec.Length ==> vec[d] == WeightedSum(hidden, mask, b, d, s)
    {
      sum := sum + mask[b, s] as real;
      AddPosition(hidden, mask, b, s, vec);
    }
    if sum > 0.0 {
      for d := 0 to vec.Length
        invariant forall d' :: 0 <= d' < d ==> vec[d'] == Pooled(hidden, mask, b, d')
        invariant forall d' :: d <= d' < vec.Length ==> vec[d'] == WeightedSum(hidden, mask, b, d', hidden.Length1)
      {
        vec[d] := vec[d] / sum;
      }
    }
  }

  /** The loop over the batch. */
  method MeanPooling(hidden: array3<real>, mask: array2<int>) returns (result: seq<array<real>>)
    requires mask.Length0 == hidden.Length0 && mask.Length1 == hidden.Length1
    ensures |result| == hidden.Length0
    ensures forall b :: 0 <= b < |result| ==> result[b].Length == hidden.Length2 && fresh(result[b])
    ensures forall b, d :: 0 <= b < |result| && 0 <= d < hidden.Length2 ==> result[b][d] == Pooled(hidden, mask, b, d)
  {
    result := [];
    for b := 0 to hidden.Length0
      invariant |result| == b
      invariant forall b' :: 0 <= b' < b ==> result[b'].Length == hidden.Length2 && fresh(result[b'])
      invariant forall b', d :: 0 <= b' < b && 0 <= d < hidden.Length2 ==> result[b'][d] == Pooled(hidden, mask, b', d)
    {
      var vec := PoolOne(hidden, mask, b);
      result := result + [vec];
    }
  }

  // ----- What the pipeline computes -----

  ghost function CoveredSum(flat: seq<real>, len: nat, dim: nat, b: nat, d: nat, n: nat): real
  {
    if n == 0 then 0.0 else CoveredSum(flat, len, dim, b, d, n - 1) + HiddenAt(flat, len, dim, b, n - 1, d)
  }

  /** The mean of the hidden states at the first `n` positions of text `b`; zero for no tokens. */
  ghost function CoveredMean(flat: seq<real>, len: nat, dim: nat, b: nat, d: nat, n: nat): real
  {
    if n == 0 then 0.0 else CoveredSum(flat, len, dim, b, d, n) / n as real
  }

  ghost predicate MaskCovers(mask: array2<int>, b: nat, n: nat)
    requires b < mask.Length0
    reads mask
  {
    forall s :: 0 <= s < mask.Length1 ==> mask[b, s] == if s < n then 1 else 0
  }

  lemma {:induction false} MaskedSums(hidden: array3<real>, mask: array2<int>, flat: seq<real>, b: nat, d: nat, n: nat,
                                      m: nat)
    requires b < hidden.Length0 && d < hidden.Length2 && m <= hidden.Length1 && n <= hidden.Length1
    requires mask.Length0 == hidden.Length0 && mask.Length1 == hidden.Length1
    requires MaskCovers(mask, b, n)
    requires forall s :: 0 <= s < hidden.Length1 ==>
               hidden[b, s, d] == HiddenAt(flat, hidden.Length1, hidden.Length2, b, s, d)
    ensures var k := if m < n then m else n;
            && WeightSum(mask, b, m) == k as real
            && WeightedSum(hidden, mask, b, d, m) == CoveredSum(flat, hidden.Length1, hidden.Length2, b, d, k)
  {
    if m > 0 {
      MaskedSums(hidden, mask, flat, b, d, n, m - 1);
      var w, x := mask[b, m - 1] as real, hidden[b, m - 1, d];
      assert x * w == if m - 1 < n then x else 0.0;
    }
  }

  /** Masked pooling of a covered text is the mean over its covered positions. */
  lemma PooledIsCoveredMean(hidden: array3<real>, mask: array2<int>, flat: seq<real>, b: nat, d: nat, n: nat)
    requires b < hidden.Length0 && d < hidden.Length2 && n <= hidden.Length1
    requires mask.Length0 == hidden.Length0 && mask.Length1 == hidden.Length1
    requires MaskCovers(mask, b, n)
    requires forall s :: 0 <= s < hidden.Length1 ==>
               hidden[b, s, d] == HiddenAt(flat, hidden.Length1, hidden.Length2, b, s, d)
    ensures Pooled(hidden, mask, b, d) == CoveredMean(flat, hidden.Length1, hidden.Length2, b, d, n)
  {
    MaskedSums(hidden, mask, flat, b, d, n, hidden.Length1);
  }

  /** Padded positions do not matter: states that agree on the covered positions pool alike. */
  lemma {:induction false} PaddingIsIrrelevant(flat: seq<real>, other: seq<real>, len: nat, dim: nat, b: nat, d: nat,
                                               n: nat)
    requires forall s :: 0 <= s < n ==> HiddenAt(flat, len, dim, b, s, d) == HiddenAt(other, len, dim, b, s, d)
    ensures CoveredSum(flat, len, dim, b, d, n) == CoveredSum(other, len, dim, b, d, n)
    ensures CoveredMean(flat, len, dim, b, d, n) == CoveredMean(other, len, dim, b, d, n)
  {
    if n > 0 {
      PaddingIsIrrelevant(flat, other, len, dim, b, d, n - 1);
    }
  }

  lemma {:induction false} CoveredSumBetween(flat: seq<real>, len: nat, dim: nat, b: nat, d: nat, n: nat, lo: real,
                                             hi: real)
    requires forall s :: 0 <= s < n ==> lo <= HiddenAt(flat, len, dim, b, s, d) <= hi
    ensures n as real * lo <= CoveredSum(flat, len, dim, b, d, n) <= n as real * hi
  {
    if n > 0 {
      CoveredSumBetween(flat, len, dim, b, d, n - 1, lo, hi);
      assert n as real * lo == (n - 1) as real * lo + lo;
      assert n as real * hi == (n - 1) as real * hi + hi;
    }
  }

  lemma QuotientBetween(x: real, n: real, lo: real, hi: real)
    requires n > 0.0 && n * lo <= x <= n * hi
    ensures lo <= x / n <= hi
  {
    var q := x / n;
    assert q * n == x;
    assert (q - lo) * n >= 0.0 && (hi - q) * n >= 0.0;
    NonNegativeFactor(n, q - lo);
    NonNegativeFactor(n, hi - q);
  }

  /** The mean as it grows: one more covered position adds its value to `n` times the mean. */
  lemma MeanGrows(flat: seq<real>, len: nat, dim: nat, b: nat, d: nat, n: nat)
    ensures (n + 1) as real * CoveredMean(flat, len, dim, b, d, n + 1)
         == n as real * CoveredMean(flat, len, dim, b, d, n) + HiddenAt(flat, len, dim, b, n, d)
  {
    var sum, next := CoveredSum(flat, len, dim, b, d, n), CoveredSum(flat, len, dim, b, d, n + 1);
    assert (n + 1) as real * (next / (n + 1) as real) == next;
    if n > 0 {
      assert n as real * (sum / n as real) == sum;
    }
  }

  /** Each pooled component lies between the least and the greatest covered value. */
  lemma MeanIsBetween(flat: seq<real>, len: nat, dim: nat, b: nat, d: nat, n: nat, lo: real, hi: real)
    requires n > 0 && forall s :: 0 <= s < n ==> lo <= HiddenAt(flat, len, dim, b, s, d) <= hi
    ensures lo <= CoveredMean(flat, len, dim, b, d, n) <= hi
  {
    CoveredSumBetween(flat, len, dim, b, d, n, lo, hi);
    QuotientBetween(CoveredSum(flat, len, dim, b, d, n), n as real, lo, hi);
  }

  // ----- The whole embedding -----

  /** The flat ids and mask of a batch: text `b` occupies the positions from b * len on. */
  ghost predicate IsBatch(tokens: seq<seq<int>>, len: nat, upTo: nat, ids: seq<int>, mask: seq<int>)
    requires upTo <= |tokens|
  {
    forall b, s :: 0 <= b < upTo && 0 <= s < len ==>
      && MaskAt(ids, len, b, s) == (if s < Covered(tokens[b], len) then tokens[b][s] else 0)
      && MaskAt(mask, len, b, s) == (if s < Covered(tokens[b], len) then 1 else 0)
  }

  /** Copies one padded text into its place in the flat batch. */
  method PlaceRow(flat: array<int>, rows: nat, len: nat, b: nat, row: array<int>)
    requires flat != row && b < rows && flat.Length == rows * len && row.Length == len
    modifies flat
    ensures forall s :: 0 <= s < len ==> MaskAt(flat[..], len, b, s) == row[s]
    ensures forall b', s :: 0 <= b' < b && 0 <= s < len ==>
            MaskAt(flat[..], len, b', s) == old(MaskAt(flat[..], len, b', s))
  {
    for s := 0 to len
      invariant forall s' :: 0 <= s' < s ==> MaskAt(flat[..], len, b, s') == row[s']
      invariant forall b', s' :: 0 <= b' < b && 0 <= s' < len ==>
              MaskAt(flat[..], len, b', s') == old(MaskAt(flat[..], len, b', s'))
    {
      CellInRow(rows, len, b, s);
      ghost var before := flat[..];
      flat[b * len + s] := row[s];
      forall b', s' | (0 <= b' < b && 0 <= s' < len) || (b' == b && 0 <= s' < s)
        ensures MaskAt(flat[..], len, b', s') == MaskAt(before, len, b', s')
      {
        EarlierCell(len, b', s', b, s);
      }
    }
  }

  lemma EarlierCell(len: nat, b': nat, s': nat, b: nat, s: nat)
    requires (b' < b && s' < len) || (b' == b && s' < s)
    ensures b' * len + s' < b * len + s
  {
    if b' < b {
      CellInRow(b, len, b', s');
    }
  }

  /** Pads and lays out the whole batch. */
  method BuildInputs(tokens: seq<seq<int>>, len: nat) returns (ids: array<int>, mask: array<int>)
    ensures ids.Length == mask.Length == |tokens| * len
    ensures IsBatch(tokens, len, |tokens|, ids[..], mask[..])
  {
    ids := new int[|tokens| * len](_ => 0);
    mask := new int[|tokens| * len](_ => 0);
    for b := 0 to |tokens|
      invariant IsBatch(tokens, len, b, ids[..], mask[..])
    {
      var rowIds, rowMask := PadAndMask(tokens[b], len);
      PlaceRow(ids, |tokens|, len, b, rowIds);
      PlaceRow(mask, |tokens|, len, b, rowMask);
    }
  }

  ghost function MeanVector(flat: seq<real>, len: nat, dim: nat, b: nat, n: nat): (v: seq<real>)
    ensures |v| == dim
    ensures forall d {:trigger v[d]} :: 0 <= d < dim ==> v[d] == CoveredMean(flat, len, dim, b, d, n)
  {
    seq(dim, d requires 0 <= d => CoveredMean(flat, len, dim, b, d, n))
  }

  ghost predicate MatchesShape(session: (seq<int>, seq<int>) -> seq<real>, positions: nat, dim: nat)
  {
    forall ids, mask :: |ids| == |mask| == positions ==> |session(ids, mask)| == positions * dim
  }

  /**
   * The vector of every text is the normalised mean of the hidden states at its first min(tokens, 512)
   * positions, read at flat index (b * 512 + s) * 512 + d.
   */
  method Embed(sqrt: SqrtFn, tokens: seq<seq<int>>, session: (seq<int>, seq<int>) -> seq<real>)
    returns (vectors: seq<array<real>>, ghost ids: seq<int>, ghost mask: seq<int>)
    requires IsSqrt(sqrt) && MatchesShape(session, |tokens| * MAX_LENGTH, EMBEDDING_DIM)
    ensures |ids| == |mask| == |tokens| * 512 && IsBatch(tokens, MAX_LENGTH, |tokens|, ids, mask)
    ensures |vectors| == |tokens| && forall b :: 0 <= b < |tokens| ==> vectors[b].Length == 512
    ensures forall b :: 0 <= b < |tokens| ==>
              vectors[b][..]
                == Normalized(sqrt,
                              MeanVector(session(ids, mask), MAX_LENGTH, EMBEDDING_DIM, b,
                                         Covered(tokens[b], MAX_LENGTH)))
  {
    var inputIDs, attnMask := BuildInputs(tokens, MAX_LENGTH);
    ids, mask := inputIDs[..], attnMask[..];
    var raw := session(inputIDs[..], attnMask[..]);
    var pooled := PoolBatch(tokens, raw, attnMask[..], MAX_LENGTH, EMBEDDING_DIM, ids);
    vectors := NormalizeAll(sqrt, pooled);
  }

  /** Reshapes the session's output and the mask, then pools. */
  method PoolBatch(tokens: seq<seq<int>>, raw: seq<real>, mask: seq<int>, len: nat, dim: nat, ghost ids: seq<int>)
    returns (pooled: seq<array<real>>)
    requires |mask| == |tokens| * len && |raw| == |tokens| * len * dim
    requires IsBatch(tokens, len, |tokens|, ids, mask)
    ensures |pooled| == |tokens|
    ensures forall b :: 0 <= b < |tokens| ==> pooled[b][..] == MeanVector(raw, len, dim, b, Covered(tokens[b], len))
  {
    var hidden := ReshapeHidden(raw, |tokens|, len, dim);
    var mask2D := ReshapeMask(mask, |tokens|, len);
    pooled := MeanPooling(hidden, mask2D);
    forall b | 0 <= b < |tokens|
      ensures pooled[b][..] == MeanVector(raw, len, dim, b, Covered(tokens[b], len))
    {
      PooledRow(hidden, mask2D, raw, mask, tokens, b, pooled[b][..]);
    }
  }

  method NormalizeAll(sqrt: SqrtFn, pooled: seq<array<real>>) returns (vectors: seq<array<real>>)
    requires IsSqrt(sqrt)
    ensures |vectors| == |pooled|
    ensures forall b :: 0 <= b < |pooled| ==> vectors[b][..] == Normalized(sqrt, pooled[b][..])
  {
    vectors := [];
    for b := 0 to |pooled|
      invariant |vectors| == b
      invariant forall b' :: 0 <= b' < b ==> vectors[b'][..] == Normalized(sqrt, pooled[b'][..])
    {
      var v := NormalizeVector(sqrt, pooled[b]);
      vectors := vectors + [v];
    }
  }

  lemma PooledRow(hidden: array3<real>, mask2D: array2<int>, raw: seq<real>, mask: seq<int>, tokens: seq<seq<int>>,
                  b: nat, v: seq<real>)
    requires b < |tokens| && hidden.Length0 == mask2D.Length0 == |tokens| && hidden.Length1 == mask2D.Length1
    requires forall s, d :: 0 <= s < hidden.Length1 && 0 <= d < hidden.Length2 ==>
               hidden[b, s, d] == HiddenAt(raw, hidden.Length1, hidden.Length2, b, s, d)
    requires forall s :: 0 <= s < mask2D.Length1 ==>
               && mask2D[b, s] == MaskAt(mask, mask2D.Length1, b, s)
               && MaskAt(mask, mask2D.Length1, b, s) == if s < Covered(tokens[b], mask2D.Length1) then 1 else 0
    requires |v| == hidden.Length2 && forall d :: 0 <= d < |v| ==> v[d] == Pooled(hidden, mask2D, b, d)
    ensures v == MeanVector(raw, hidden.Length1, hidden.Length2, b, Covered(tokens[b], hidden.Length1))
  {
    var n := Covered(tokens[b], hidden.Length1);
    forall d | 0 <= d < |v|
      ensures v[d] == CoveredMean(raw, hidden.Length1, hidden.Length2, b, d, n)
    {
      PooledIsCoveredMean(hidden, mask2D, raw, b, d, n);
    }
  }
}
