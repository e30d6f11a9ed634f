/** The per-epoch batch plan of `Optimizer.train`: how many batches an epoch
    has, and how a shuffled index range is cut into them. */
module BatchPlan {
  import opened Wrappers

  /** The number of full batches the training list yields: the quotient of
      the sentence count by the batch size, rounded down.  The remainder
      sentences are left out of every epoch. */
  function NbBatches(nbSentences: nat, batchSize: nat): (nb: nat)
    requires batchSize > 0
    ensures nb * batchSize <= nbSentences < (nb + 1) * batchSize
  {
    nbSentences / batchSize
  }

  /** The length of `nb` consecutive chunks of `size` elements, counted
      chunk by chunk. */
  function Span(nb: nat, size: nat): nat
  {
    if nb == 0 then 0 else Span(nb - 1, size) + size
  }

  lemma {:induction false} SpanIsProduct(nb: nat, size: nat)
    ensures Span(nb, size) == nb * size
  {
    if nb > 0 {
      SpanIsProduct(nb - 1, size);
      assert nb * size == (nb - 1) * size + size;
    }
  }

  /** `perm` is a shuffle of the index range [0, n): it has n entries, all
      in the range, every index of the range occurs, and none twice. */
  ghost predicate IsShuffleOf(perm: seq<nat>, n: nat)
  {
    && |perm| == n
    && (forall i :: 0 <= i < |perm| ==> perm[i] < n)
    && (forall x: nat :: x < n ==> x in perm)
    && (forall i, j :: 0 <= i < j < |perm| ==> perm[i] != perm[j])
  }

  /** Cuts `xs` (of `nb` times `size` elements) into `nb` consecutive chunks
      of `size` elements: `np.split(rndidx, nbbatches)` on an array whose
      length is a multiple of `nbbatches`. */
  function Split<T>(xs: seq<T>, nb: nat, size: nat): (chunks: seq<seq<T>>)
    requires |xs| == Span(nb, size)
    ensures |chunks| == nb
    ensures forall k :: 0 <= k < nb ==> |chunks[k]| == size
    decreases nb
  {
    if nb == 0 then [] else [xs[..size]] + Split(xs[size..], nb - 1, size)
  }

  /** Element `j` of chunk `k` is the element of the input after the `k`
      chunks before it and `j` more. */
  lemma {:induction false} SplitElement<T>(xs: seq<T>, nb: nat, size: nat, k: nat, j: nat)
    requires |xs| == Span(nb, size) && k < nb && j < size
    ensures Span(k, size) + j < |xs|
    ensures Split(xs, nb, size)[k][j] == xs[Span(k, size) + j]
    decreases k
  {
    var rest := xs[size..];
    assert Split(xs, nb, size) == [xs[..size]] + Split(rest, nb - 1, size);
    if k > 0 {
      SplitElement(rest, nb - 1, size, k - 1, j);
      assert Span(k, size) == Span(k - 1, size) + size;
      assert rest[Span(k - 1, size) + j] == xs[Span(k, size) + j];
    }
  }

  /** Two (chunk, offset) pairs naming the same position are the same pair. */
  lemma {:induction false} PositionUnique(k1: nat, j1: nat, k2: nat, j2: nat, size: nat)
    requires j1 < size && j2 < size
    requires Span(k1, size) + j1 == Span(k2, size) + j2
    ensures k1 == k2 && j1 == j2
    decreases k1
  {
    if k1 > 0 && k2 > 0 {
      PositionUnique(k1 - 1, j1, k2 - 1, j2, size);
    }
  }

  /** Every position of the input lies at some offset of some chunk. */
  lemma {:induction false} ChunkOfPosition(nb: nat, size: nat, p: nat) returns (k: nat, j: nat)
    requires p < Span(nb, size)
    ensures k < nb && j < size && Span(k, size) + j == p
    decreases nb
  {
    if p < size {
      k, j := 0, p;
    } else {
      var k' , j' := ChunkOfPosition(nb - 1, size, p - size);
      k, j := k' + 1, j';
    }
  }

  /** The failure of `np.split` when asked for zero sections. */
  datatype PlanError = ZeroSections

  /** The batches of one epoch: the shuffle `perm` of [0, nb * batchSize) cut
      into `nb` batches, or the failure of cutting it into zero sections. */
  function EpochBatches(perm: seq<nat>, nb: nat, batchSize: nat): (r: Result<seq<seq<nat>>, PlanError>)
    requires |perm| == nb * batchSize
    ensures r.Err? <==> nb == 0
    ensures r.Ok? ==> |r.value| == nb && forall k :: 0 <= k < nb ==> |r.value[k]| == batchSize
  {
    SpanIsProduct(nb, batchSize);
    if nb == 0 then Err(ZeroSections) else Ok(Split<nat>(perm, nb, batchSize))
  }

  /** The sentences a batch trains on: the training list looked up at the
      batch's indices. */
  function BatchSentences<F>(sentences: seq<F>, batch: seq<nat>): (r: seq<F>)
    requires forall i :: 0 <= i < |batch| ==> batch[i] < |sentences|
    ensures |r| == |batch|
    ensures forall i :: 0 <= i < |r| ==> r[i] == sentences[batch[i]]
  {
    seq(|batch|, i requires 0 <= i < |batch| => sentences[batch[i]])
  }

  /** Looking up a concatenation of index lists is concatenating the
      lookups. */
  lemma BatchSentencesAppend<F>(sentences: seq<F>, a: seq<nat>, b: seq<nat>)
    requires forall i :: 0 <= i < |a| ==> a[i] < |sentences|
    requires forall i :: 0 <= i < |b| ==> b[i] < |sentences|
    ensures forall i :: 0 <= i < |a + b| ==> (a + b)[i] < |sentences|
    ensures BatchSentences(sentences, a + b) == BatchSentences(sentences, a) + BatchSentences(sentences, b)
  {
    assert forall i :: 0 <= i < |a + b| ==> (a + b)[i] == if i < |a| then a[i] else b[i - |a|];
  }

  /** Every index of `xs` names one of the first `n` sentences. */
  ghost predicate IndexesBelow(xs: seq<nat>, n: nat)
  {
    forall i :: 0 <= i < |xs| ==> xs[i] < n
  }

  /** Every index of every batch names a sentence of the list. */
  ghost predicate BatchesBelow(chunks: seq<seq<nat>>, n: nat)
  {
    forall k, i :: 0 <= k < |chunks| && 0 <= i < |chunks[k]| ==> chunks[k][i] < n
  }

  /** The sentences of all batches of an epoch, batch after batch, in the
      order the batch loop trains on them. */
  function EpochSentences<F>(sentences: seq<F>, chunks: seq<seq<nat>>): seq<F>
    requires BatchesBelow(chunks, |sentences|)
  {
    if |chunks| == 0 then []
    else
      assert forall i :: 0 <= i < |chunks[0]| ==> chunks[0][i] < |sentences|;
      assert BatchesBelow(chunks[1..], |sentences|) by {
        forall k, i | 0 <= k < |chunks[1..]| && 0 <= i < |chunks[1..][k]|
          ensures chunks[1..][k][i] < |sentences|
        {
          assert chunks[1..][k] == chunks[k + 1];
        }
      }
      BatchSentences(sentences, chunks[0]) + EpochSentences(sentences, chunks[1..])
  }

  /** Training the split batches one after the other looks up the shuffled
      indices in order. */
  lemma {:induction false} SplitSentences<F>(sentences: seq<F>, xs: seq<nat>, nb: nat, size: nat)
    requires |xs| == Span(nb, size)
    requires forall i :: 0 <= i < |xs| ==> xs[i] < |sentences|
    ensures BatchesBelow(Split(xs, nb, size), |sentences|)
    ensures EpochSentences(sentences, Split(xs, nb, size)) == BatchSentences(sentences, xs)
    decreases nb
  {
    var chunks := Split(xs, nb, size);
    if nb > 0 {
      var rest := xs[size..];
      assert forall i :: 0 <= i < |rest| ==> rest[i] == xs[size + i];
      SplitSentences(sentences, rest, nb - 1, size);
      assert chunks[0] == xs[..size] && chunks[1..] == Split(rest, nb - 1, size);
      assert xs == xs[..size] + rest;
      BatchSentencesAppend(sentences, xs[..size], rest);
    }
  }

  /** Dropping the entry n - 1 from a shuffle of [0, n) leaves a shuffle of
      [0, n - 1). */
  lemma ShuffleWithout(perm: seq<nat>, n: nat, p: nat)
    requires IsShuffleOf(perm, n) && p < n && perm[p] == n - 1
    ensures IsShuffleOf(perm[..p] + perm[p + 1..], n - 1)
  {
    var rest := perm[..p] + perm[p + 1..];
    assert forall i :: 0 <= i < |rest| ==> rest[i] == perm[if i < p then i else i + 1];
    forall x: nat | x < n - 1
      ensures x in rest
    {
      assert x in perm;
      var q :| 0 <= q < |perm| && perm[q] == x;
      assert rest[if q < p then q else q - 1] == x;
    }
  }

  /** Looking up an index list is looking up the entries before `p`, the
      entry at `p` and the entries after it. */
  lemma BatchSentencesAround<F>(sentences: seq<F>, perm: seq<nat>, p: nat)
    requires IndexesBelow(perm, |sentences|) && p < |perm|
    ensures IndexesBelow(perm[..p], |sentences|) && IndexesBelow(perm[p + 1..], |sentences|)
    ensures BatchSentences(sentences, perm) ==
              BatchSentences(sentences, perm[..p]) + [sentences[perm[p]]] + BatchSentences(sentences, perm[p + 1..])
  {
    var whole := BatchSentences(sentences, perm);
    var pre, post := BatchSentences(sentences, perm[..p]), BatchSentences(sentences, perm[p + 1..]);
    assert forall i :: 0 <= i < |post| ==> post[i] == sentences[perm[p + 1 + i]];
    assert forall i :: 0 <= i < |perm| ==>
             whole[i] == (pre + [sentences[perm[p]]] + post)[i];
  }

  /** Removing one element from the middle of a sequence removes it from
      the multiset of its elements. */
  lemma MultisetAround<F>(pre: seq<F>, x: F, post: seq<F>)
    ensures multiset(pre + [x] + post) == multiset(pre + post) + multiset{x}
  {
  }

  /** Looking up an index list is, as a multiset, looking up the list
      without its entry at `p` and that entry. */
  lemma BatchSentencesRemove<F>(sentences: seq<F>, perm: seq<nat>, p: nat)
    requires IndexesBelow(perm, |sentences|)
    requires p < |perm|
    ensures IndexesBelow(perm[..p] + perm[p + 1..], |sentences|)
    ensures multiset(BatchSentences(sentences, perm)) ==
              multiset(BatchSentences(sentences, perm[..p] + perm[p + 1..])) + multiset{sentences[perm[p]]}
  {
    var a, b := perm[..p], perm[p + 1..];
    BatchSentencesAround(sentences, perm, p);
    BatchSentencesAppend(sentences, a, b);
    MultisetAround(BatchSentences(sentences, a), sentences[perm[p]], BatchSentences(sentences, b));
  }

  /** The position of an index a shuffle holds. */
  lemma PositionIn(perm: seq<nat>, x: nat) returns (p: nat)
    requires x in perm
    ensures p < |perm| && perm[p] == x
  {
    p :| 0 <= p < |perm| && perm[p] == x;
  }

  /** Looking up a shuffle of [0, n) gives the first n sentences, each once,
      in some order. */
  lemma {:induction false} ShuffleSentences<F>(sentences: seq<F>, perm: seq<nat>, n: nat)
    requires IsShuffleOf(perm, n) && n <= |sentences|
    ensures multiset(BatchSentences(sentences, perm)) == multiset(sentences[..n])
    decreases n
  {
    if n > 0 {
      var p := PositionIn(perm, n - 1);
      ShuffleWithout(perm, n, p);
      ShuffleSentences(sentences, perm[..p] + perm[p + 1..], n - 1);
      BatchSentencesRemove(sentences, perm, p);
      assert sentences[..n] == sentences[..n - 1] + [sentences[n - 1]];
    }
  }

  /** The sentences one epoch trains on are the first nb * batchSize
      sentences of the training list, each exactly once: the shuffle
      reorders them and the rounded-down remainder is never trained on. */
  lemma EpochSentencesArePrefix<F>(sentences: seq<F>, perm: seq<nat>, nb: nat, batchSize: nat)
    requires |perm| == nb * batchSize <= |sentences| && IsShuffleOf(perm, |perm|)
    ensures EpochBatches(perm, nb, batchSize).Ok? ==>
              var chunks := EpochBatches(perm, nb, batchSize).value;
              && BatchesBelow(chunks, |sentences|)
              && multiset(EpochSentences(sentences, chunks)) == multiset(sentences[..nb * batchSize])
  {
    SpanIsProduct(nb, batchSize);
    if nb > 0 {
      SplitSentences(sentences, perm, nb, batchSize);
      ShuffleSentences(sentences, perm, |perm|);
    }
  }

  /** Index `i` is at some offset of some batch. */
  ghost predicate InSomeBatch(chunks: seq<seq<nat>>, i: nat)
  {
    exists k, j :: 0 <= k < |chunks| && 0 <= j < |chunks[k]| && chunks[k][j] == i
  }

  /** The batches of an epoch use only indices of the shuffled range: with
      `nb` from `NbBatches`, no sentence at or beyond nb * batchSize (the
      ones left over by the rounding down) is used by any batch. */
  lemma BatchesUsePrefixOnly(perm: seq<nat>, nb: nat, batchSize: nat)
    requires |perm| == nb * batchSize && IsShuffleOf(perm, |perm|)
    ensures EpochBatches(perm, nb, batchSize).Ok? ==>
              var chunks := EpochBatches(perm, nb, batchSize).value;
              forall k, j :: 0 <= k < nb && 0 <= j < batchSize ==> chunks[k][j] < |perm|
  {
    SpanIsProduct(nb, batchSize);
    forall k, j | 0 <= k < nb && 0 <= j < batchSize
      ensures Split<nat>(perm, nb, batchSize)[k][j] < |perm|
    {
      SplitElement<nat>(perm, nb, batchSize, k, j);
    }
  }

  /** Every index of the shuffled range is used by some batch of the epoch. */
  lemma BatchesCoverPrefix(perm: seq<nat>, nb: nat, batchSize: nat)
    requires |perm| == nb * batchSize && IsShuffleOf(perm, |perm|)
    ensures EpochBatches(perm, nb, batchSize).Ok? ==>
              forall i: nat :: i < |perm| ==> InSomeBatch(EpochBatches(perm, nb, batchSize).value, i)
  {
    SpanIsProduct(nb, batchSize);
    forall i: nat | i < |perm|
      ensures InSomeBatch(Split<nat>(perm, nb, batchSize), i)
    {
      assert i in perm;
      var p :| 0 <= p < |perm| && perm[p] == i;
      var k, j := ChunkOfPosition(nb, batchSize, p);
      SplitElement<nat>(perm, nb, batchSize, k, j);
    }
  }

  /** No index is used twice in an epoch: equal entries of the batches sit in
      the same batch at the same offset. */
  lemma BatchesDisjoint(perm: seq<nat>, nb: nat, batchSize: nat)
    requires |perm| == nb * batchSize && IsShuffleOf(perm, |perm|)
    ensures EpochBatches(perm, nb, batchSize).Ok? ==>
              var chunks := EpochBatches(perm, nb, batchSize).value;
              forall k1, j1, k2, j2 ::
                (0 <= k1 < nb && 0 <= j1 < batchSize && 0 <= k2 < nb && 0 <= j2 < batchSize &&
                 chunks[k1][j1] == chunks[k2][j2]) ==> k1 == k2 && j1 == j2
  {
    SpanIsProduct(nb, batchSize);
    var chunks := Split<nat>(perm, nb, batchSize);
    forall k1, j1, k2, j2 |
      0 <= k1 < nb && 0 <= j1 < batchSize && 0 <= k2 < nb && 0 <= j2 < batchSize &&
      chunks[k1][j1] == chunks[k2][j2]
      ensures k1 == k2 && j1 == j2
    {
      SplitElement<nat>(perm, nb, batchSize, k1, j1);
      SplitElement<nat>(perm, nb, batchSize, k2, j2);
      PositionUnique(k1, j1, k2, j2, batchSize);
    }
  }
}
