/** The nested loop of the merge pass (src/SensibleMergingPlugin.ts, lines 55-60): the
    outer loop picks a chunk `a`, the inner loop walks the chunks from the start and
    stops on reaching `a` itself, and initial chunks are skipped on both sides. The
    visited pairs are recorded by their positions in the chunk list. */
module Enumeration {
  import opened ChunkGraph
  import opened Seqs

  /** The positions of the outer chunk `a` and the inner chunk `b` of a visited pair. */
  datatype Pair = Pair(ai: nat, bi: nat)

  /** `p` is visited before `q` by the nested loop. */
  predicate Before(p: Pair, q: Pair) {
    RowMajorBefore(p.ai, p.bi, q.ai, q.bi)
  }

  /** Every pair of the list is visited strictly before every later one. */
  predicate RowMajorSorted(ps: seq<Pair>) {
    forall k, l :: 0 <= k < l < |ps| ==> Before(ps[k], ps[l])
  }

  /** Positions i and j hold two chunks that cannot be initial, the one at j first. */
  predicate Visited<G>(port: Port<G>, g: G, chunks: seq<ChunkId>, i: int, j: int) {
    && 0 <= j < i < |chunks|
    && !port.canBeInitial(g, chunks[i])
    && !port.canBeInitial(g, chunks[j])
  }

  /** The inner loop for the outer chunk at position i, from inner position j on:
      initial chunks are skipped, and the loop breaks at the outer chunk itself. */
  function InnerScan<G>(port: Port<G>, g: G, chunks: seq<ChunkId>, i: nat, j: nat): seq<Pair>
    requires i < |chunks| && j <= |chunks|
    decreases |chunks| - j
  {
    if j == |chunks| then []
    else if port.canBeInitial(g, chunks[j]) then InnerScan(port, g, chunks, i, j + 1)
    else if chunks[j] == chunks[i] then []
    else [Pair(i, j)] + InnerScan(port, g, chunks, i, j + 1)
  }

  /** The outer loop from outer position i on; initial chunks are skipped. */
  function OuterScan<G>(port: Port<G>, g: G, chunks: seq<ChunkId>, i: nat): seq<Pair>
    requires i <= |chunks|
    decreases |chunks| - i
  {
    if i == |chunks| then []
    else
      (if port.canBeInitial(g, chunks[i]) then [] else InnerScan(port, g, chunks, i, 0))
      + OuterScan(port, g, chunks, i + 1)
  }

  /** All pairs the nested loop visits, in visiting order: exactly the pairs of
      non-initial chunks with the inner one strictly earlier in the list, each once,
      ordered by outer position and then by inner position. */
  function Pairs<G>(port: Port<G>, g: G, chunks: seq<ChunkId>): (ps: seq<Pair>)
    requires Distinct(chunks)
    ensures forall p :: p in ps <==> Visited(port, g, chunks, p.ai, p.bi)
    ensures RowMajorSorted(ps)
  {
    OuterScanSpec(port, g, chunks, 0);
    OuterScan(port, g, chunks, 0)
  }

  /** Joining two sorted lists, all of the first before all of the second, is sorted. */
  lemma SortedConcat(x: seq<Pair>, y: seq<Pair>)
    requires RowMajorSorted(x) && RowMajorSorted(y)
    requires forall p, q :: p in x && q in y ==> Before(p, q)
    ensures RowMajorSorted(x + y)
  {
    forall k, l | 0 <= k < l < |x + y|
      ensures Before((x + y)[k], (x + y)[l])
    {
      if l < |x| {
        assert Before(x[k], x[l]);
      } else if k >= |x| {
        assert Before(y[k - |x|], y[l - |x|]);
      } else {
        assert x[k] in x && y[l - |x|] in y;
      }
    }
  }

  /** What the inner loop visits for a non-initial outer chunk: the non-initial chunks
      from position j up to the outer chunk's own position, in order. */
  lemma {:induction false} InnerScanSpec<G>(port: Port<G>, g: G, chunks: seq<ChunkId>, i: nat, j: nat)
    requires Distinct(chunks) && i < |chunks| && j <= i
    requires !port.canBeInitial(g, chunks[i])
    ensures forall p :: p in InnerScan(port, g, chunks, i, j) <==>
              p.ai == i && j <= p.bi && Visited(port, g, chunks, p.ai, p.bi)
    ensures RowMajorSorted(InnerScan(port, g, chunks, i, j))
    decreases i - j
  {
    if j < i {
      InnerScanSpec(port, g, chunks, i, j + 1);
      var rest := InnerScan(port, g, chunks, i, j + 1);
      if !port.canBeInitial(g, chunks[j]) {
        assert chunks[j] != chunks[i];
        SortedConcat([Pair(i, j)], rest);
      }
    }
  }

  /** What the outer loop visits from position i on. */
  lemma {:induction false} OuterScanSpec<G>(port: Port<G>, g: G, chunks: seq<ChunkId>, i: nat)
    requires Distinct(chunks) && i <= |chunks|
    ensures forall p :: p in OuterScan(port, g, chunks, i) <==>
              i <= p.ai && Visited(port, g, chunks, p.ai, p.bi)
    ensures RowMajorSorted(OuterScan(port, g, chunks, i))
    decreases |chunks| - i
  {
    if i < |chunks| {
      OuterScanSpec(port, g, chunks, i + 1);
      if !port.canBeInitial(g, chunks[i]) {
        InnerScanSpec(port, g, chunks, i, 0);
        SortedConcat(InnerScan(port, g, chunks, i, 0), OuterScan(port, g, chunks, i + 1));
      }
    }
  }

  /** The number of chunks of `s` that cannot be initial. */
  function NonInitialCount<G>(port: Port<G>, g: G, s: seq<ChunkId>): nat {
    if |s| == 0 then 0
    else NonInitialCount(port, g, s[..|s| - 1]) + (if port.canBeInitial(g, s[|s| - 1]) then 0 else 1)
  }

  /** The inner loop visits one pair per non-initial chunk before the outer chunk. */
  lemma {:induction false} InnerScanLength<G>(port: Port<G>, g: G, chunks: seq<ChunkId>, i: nat, j: nat)
    requires Distinct(chunks) && i < |chunks| && j <= i
    requires !port.canBeInitial(g, chunks[i])
    ensures |InnerScan(port, g, chunks, i, j)| + NonInitialCount(port, g, chunks[..j])
            == NonInitialCount(port, g, chunks[..i])
    decreases i - j
  {
    if j < i {
      InnerScanLength(port, g, chunks, i, j + 1);
      assert chunks[..j + 1][..j] == chunks[..j];
      assert chunks[j] != chunks[i];
    }
  }

  /** Twice the number of unordered pairs drawn from m items. */
  function TwicePairCount(m: int): int {
    m * (m - 1)
  }

  /** One more item adds m pairs to m items. */
  lemma TwicePairCountStep(m: int)
    ensures TwicePairCount(m + 1) == TwicePairCount(m) + 2 * m
  {
    assert (m + 1) * m == m * (m - 1) + 2 * m;
  }

  /** Counting identity behind `PairsCount`, from outer position i on. */
  lemma {:induction false} OuterScanLength<G>(port: Port<G>, g: G, chunks: seq<ChunkId>, i: nat)
    requires Distinct(chunks) && i <= |chunks|
    ensures 2 * |OuterScan(port, g, chunks, i)| + TwicePairCount(NonInitialCount(port, g, chunks[..i]))
            == TwicePairCount(NonInitialCount(port, g, chunks))
    decreases |chunks| - i
  {
    if i == |chunks| {
      assert chunks[..i] == chunks;
    } else {
      OuterScanLength(port, g, chunks, i + 1);
      var c := NonInitialCount(port, g, chunks[..i]);
      assert chunks[..i + 1][..i] == chunks[..i];
      if port.canBeInitial(g, chunks[i]) {
        assert NonInitialCount(port, g, chunks[..i + 1]) == c;
        assert |OuterScan(port, g, chunks, i)| == |OuterScan(port, g, chunks, i + 1)|;
      } else {
        assert NonInitialCount(port, g, chunks[..i + 1]) == c + 1;
        InnerScanLength(port, g, chunks, i, 0);
        assert chunks[..0] == [];
        assert |InnerScan(port, g, chunks, i, 0)| == c;
        assert |OuterScan(port, g, chunks, i)| == c + |OuterScan(port, g, chunks, i + 1)|;
        TwicePairCountStep(c);
      }
    }
  }

  /** Among m chunks that cannot be initial, the loop visits m * (m - 1) / 2 pairs. */
  lemma PairsCount<G>(port: Port<G>, g: G, chunks: seq<ChunkId>)
    requires Distinct(chunks)
    ensures var m: int := NonInitialCount(port, g, chunks);
            2 * |Pairs(port, g, chunks)| == m * (m - 1)
  {
    OuterScanLength(port, g, chunks, 0);
    assert chunks[..0] == [];
  }

  /** No unordered pair of chunks is visited twice, in either orientation. */
  lemma PairsOnce<G>(port: Port<G>, g: G, chunks: seq<ChunkId>)
    requires Distinct(chunks)
    ensures var ps := Pairs(port, g, chunks);
            forall k, l :: 0 <= k < l < |ps| ==>
              {chunks[ps[k].ai], chunks[ps[k].bi]} != {chunks[ps[l].ai], chunks[ps[l].bi]}
  {
    var ps := Pairs(port, g, chunks);
    forall k, l | 0 <= k < l < |ps|
      ensures {chunks[ps[k].ai], chunks[ps[k].bi]} != {chunks[ps[l].ai], chunks[ps[l].bi]}
    {
      assert ps[k] in ps && ps[l] in ps;
      assert Before(ps[k], ps[l]);
      assert chunks[ps[k].ai] != chunks[ps[k].bi];
    }
  }
}
