/** The host's chunk graph as seen by the merge pass: chunk identities, the queries the
    pass makes of the graph, and the scored pairs the pass collects. */
module ChunkGraph {
  import opened Wrappers

  /** A chunk's identity. */
  type ChunkId = nat

  /** A strictly positive size. */
  type Pos = n: nat | n > 0 witness 1

  /** The chunk-graph operations the pass calls, over the graph's state `G`. Sizes are
      measured with no per-chunk overhead; `integratedChunksSize(g, b, a)` is the size
      the two chunks would have once integrated. */
  datatype Port<!G> = Port(
    canBeInitial: (G, ChunkId) -> bool,
    canChunksBeIntegrated: (G, ChunkId, ChunkId) -> bool,
    moduleResources: (G, ChunkId) -> seq<Option<string>>,
    chunkSize: (G, ChunkId) -> nat,
    integratedChunksSize: (G, ChunkId, ChunkId) -> Pos,
    integrateChunks: (G, ChunkId, ChunkId) -> G)

  /** A pair that may be merged, `a` into `b`, with the size reduction merging achieves. */
  datatype Candidate = Candidate(a: ChunkId, b: ChunkId, improvement: real)

  /** The sum of the two chunks' sizes over the size of their integration. */
  function Improvement<G>(port: Port<G>, g: G, a: ChunkId, b: ChunkId): real {
    (port.chunkSize(g, b) + port.chunkSize(g, a)) as real / port.integratedChunksSize(g, b, a) as real
  }
}
