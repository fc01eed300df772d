/** One pass of the merge plugin's `optimizeChunks` callback
    (src/SensibleMergingPlugin.ts, lines 50-105) and the host's rerun-until-stable loop.
    A pass visits every pair of non-initial chunks, drops the pairs the chunk graph
    cannot integrate or the merge strategy vetoes, scores the rest, and merges the best
    pair when its improvement reaches the threshold. */
module Planner {
  import opened Wrappers
  import opened Seqs
  import opened Config
  import opened ChunkGraph
  import opened Enumeration
  import opened Selection

  /** What `apply` derives from the options: the threshold and the optional strategy,
      together with the chunk graph the pass works on. */
  datatype Plugin<!G> = Plugin(port: Port<G>, minSizeReduce: real, mergeStrategy: Option<Strategy>)

  /** The settings of `apply` for the given options. */
  function Apply<G>(port: Port<G>, options: Options): (plugin: Plugin<G>)
    ensures plugin.port == port
    ensures plugin.minSizeReduce == MinSizeReduce(options)
    ensures plugin.minSizeReduce != 0.0
    ensures plugin.mergeStrategy == options.mergeStrategy
  {
    Plugin(port, MinSizeReduce(options), options.mergeStrategy)
  }

  /** The path a module contributes to `.map(m => m.resource).filter(Boolean)`: its
      resource when that is present and non-empty, nothing otherwise. */
  function Kept(r: Option<string>): seq<string> {
    if r.Some? && r.value != "" then [r.value] else []
  }

  /** The paths the filter keeps, module by module. */
  function KeptPaths(rs: seq<Option<string>>): seq<string> {
    if |rs| == 0 then [] else Kept(rs[0]) + KeptPaths(rs[1..])
  }

  /** `.map(m => m.resource).filter(Boolean)`: the resource paths of a chunk's modules,
      with absent and empty paths dropped and the order kept. */
  function PresentResources(rs: seq<Option<string>>): (r: seq<string>)
    ensures forall s :: s in r ==> s != "" && Some(s) in rs
    ensures forall k :: 0 <= k < |rs| && rs[k].Some? && rs[k].value != "" ==> rs[k].value in r
  {
    KeptPathsMembers(rs);
    KeptPaths(rs)
  }

  /** The kept paths are the present, non-empty resources, each one of them. */
  lemma {:induction false} KeptPathsMembers(rs: seq<Option<string>>)
    ensures forall s :: s in KeptPaths(rs) ==> s != "" && Some(s) in rs
    ensures forall k :: 0 <= k < |rs| && rs[k].Some? && rs[k].value != "" ==> rs[k].value in KeptPaths(rs)
  {
    if |rs| > 0 {
      KeptPathsMembers(rs[1..]);
      assert forall k :: 1 <= k < |rs| ==> rs[k] == rs[1..][k - 1];
    }
  }

  /** The kept paths of a module list are those of its front part followed by those of
      its back part: the filter keeps order and repeats. */
  lemma {:induction false} KeptPathsAppend(xs: seq<Option<string>>, ys: seq<Option<string>>)
    ensures KeptPaths(xs + ys) == KeptPaths(xs) + KeptPaths(ys)
    decreases |xs|
  {
    if |xs| == 0 {
      assert xs + ys == ys;
    } else {
      KeptPathsAppend(xs[1..], ys);
      assert (xs + ys)[1..] == xs[1..] + ys;
      assert Kept(xs[0]) + (KeptPaths(xs[1..]) + KeptPaths(ys))
          == (Kept(xs[0]) + KeptPaths(xs[1..])) + KeptPaths(ys);
    }
  }

  /** The filter keeps order and repeats: the paths kept from two module lists joined
      are those kept from the first followed by those kept from the second. */
  lemma PresentResourcesAppend(xs: seq<Option<string>>, ys: seq<Option<string>>)
    ensures PresentResources(xs + ys) == PresentResources(xs) + PresentResources(ys)
  {
    KeptPathsAppend(xs, ys);
  }

  /** One module keeps its path exactly when it has a non-empty one. */
  lemma PresentResourcesSingle(r: Option<string>)
    ensures r.Some? && r.value != "" ==> PresentResources([r]) == [r.value]
    ensures r.None? || r.value == "" ==> PresentResources([r]) == []
  {
    assert [r][1..] == [];
    assert KeptPaths([r]) == Kept(r) + KeptPaths([]);
  }

  /** The strategy does not veto the pair: there is none, or one of the chunks has no
      module with a resource path, or it allows the merge. */
  predicate StrategyPermits<G>(plugin: Plugin<G>, g: G, a: ChunkId, b: ChunkId) {
    var aModules := PresentResources(plugin.port.moduleResources(g, a));
    var bModules := PresentResources(plugin.port.moduleResources(g, b));
    || plugin.mergeStrategy.None?
    || |aModules| == 0
    || |bModules| == 0
    || plugin.mergeStrategy.value(aModules, bModules).allowMerge
  }

  /** What the inner loop body does with one visited pair. */
  datatype Outcome =
    | Incompatible                    // the chunk graph cannot integrate the pair
    | Vetoed(reason: Option<string>)  // the strategy denied the merge, with its reason
    | Scored(improvement: real)       // the pair becomes a candidate

  /** The inner loop body for a visited pair: the integration check, then the strategy
      when both chunks have resource paths, then the score. */
  function Evaluate<G>(plugin: Plugin<G>, g: G, a: ChunkId, b: ChunkId): (o: Outcome)
    ensures o.Scored? <==> plugin.port.canChunksBeIntegrated(g, a, b) && StrategyPermits(plugin, g, a, b)
    ensures o.Scored? ==> o.improvement == Improvement(plugin.port, g, a, b)
  {
    if !plugin.port.canChunksBeIntegrated(g, a, b) then Incompatible
    else
      var aModules := PresentResources(plugin.port.moduleResources(g, a));
      var bModules := PresentResources(plugin.port.moduleResources(g, b));
      if plugin.mergeStrategy.Some? && |aModules| > 0 && |bModules| > 0 then
        var decision := plugin.mergeStrategy.value(aModules, bModules);
        if decision.allowMerge then Scored(Improvement(plugin.port, g, a, b))
        else Vetoed(decision.reason)
      else Scored(Improvement(plugin.port, g, a, b))
  }

  /** The strategy is asked only about pairs whose two chunks both have a module with a
      resource path: for any other pair the outcome is what it would be with no strategy
      configured. A veto happens only when the strategy was asked and refused. */
  lemma StrategyConsultedOnlyWithResources<G>(plugin: Plugin<G>, g: G, a: ChunkId, b: ChunkId)
    ensures var aModules := PresentResources(plugin.port.moduleResources(g, a));
            var bModules := PresentResources(plugin.port.moduleResources(g, b));
            && (|aModules| == 0 || |bModules| == 0 ==>
                  Evaluate(plugin, g, a, b) == Evaluate(plugin.(mergeStrategy := None), g, a, b))
            && (Evaluate(plugin, g, a, b).Vetoed? ==>
                  && plugin.mergeStrategy.Some? && |aModules| > 0 && |bModules| > 0
                  && plugin.port.canChunksBeIntegrated(g, a, b)
                  && plugin.mergeStrategy.value(aModules, bModules)
                       == Decision(false, Evaluate(plugin, g, a, b).reason))
  {
  }

  /** Every visited position pair lies within the chunk list. */
  predicate InRange(chunks: seq<ChunkId>, ps: seq<Pair>) {
    forall p :: p in ps ==> p.ai < |chunks| && p.bi < |chunks|
  }

  /** The visited pairs that become candidates, in visiting order. */
  function Survivors<G>(plugin: Plugin<G>, g: G, chunks: seq<ChunkId>, ps: seq<Pair>): (r: seq<Pair>)
    requires InRange(chunks, ps)
    ensures forall p :: p in r <==> p in ps && Evaluate(plugin, g, chunks[p.ai], chunks[p.bi]).Scored?
  {
    if |ps| == 0 then []
    else
      var rest := Survivors(plugin, g, chunks, ps[1..]);
      if Evaluate(plugin, g, chunks[ps[0].ai], chunks[ps[0].bi]).Scored? then [ps[0]] + rest
      else rest
  }

  /** Filtering keeps the visiting order. */
  lemma {:induction false} SurvivorsSorted<G>(plugin: Plugin<G>, g: G, chunks: seq<ChunkId>, ps: seq<Pair>)
    requires InRange(chunks, ps) && RowMajorSorted(ps)
    ensures RowMajorSorted(Survivors(plugin, g, chunks, ps))
  {
    if |ps| > 0 {
      SurvivorsSorted(plugin, g, chunks, ps[1..]);
      var rest := Survivors(plugin, g, chunks, ps[1..]);
      assert forall q :: q in rest ==> Before(ps[0], q);
      SortedConcat([ps[0]], rest);
    }
  }

  /** The `combinations` array built from the surviving pairs. */
  function Combinations<G>(plugin: Plugin<G>, g: G, chunks: seq<ChunkId>, ss: seq<Pair>): (cs: seq<Candidate>)
    requires InRange(chunks, ss)
    ensures |cs| == |ss|
    ensures forall k :: 0 <= k < |ss| ==>
              cs[k] == Candidate(chunks[ss[k].ai], chunks[ss[k].bi],
                                 Improvement(plugin.port, g, chunks[ss[k].ai], chunks[ss[k].bi]))
  {
    seq(|ss|, k requires 0 <= k < |ss| =>
      assert ss[k] in ss;
      Candidate(chunks[ss[k].ai], chunks[ss[k].bi], Improvement(plugin.port, g, chunks[ss[k].ai], chunks[ss[k].bi])))
  }

  /** The message logged for a vetoed pair. */
  function LogLine(reason: Option<string>): string {
    "Preventing merge " + reason.GetOr("")
  }

  /** The messages logged while visiting the pairs, one per veto, in visiting order. */
  function Log<G>(plugin: Plugin<G>, g: G, chunks: seq<ChunkId>, ps: seq<Pair>): seq<string>
    requires InRange(chunks, ps)
  {
    if |ps| == 0 then []
    else
      (match Evaluate(plugin, g, chunks[ps[0].ai], chunks[ps[0].bi])
       case Vetoed(reason) => [LogLine(reason)]
       case _ => [])
      + Log(plugin, g, chunks, ps[1..])
  }

  /** The visited pair p was vetoed, and `line` is the message logged for it. */
  ghost predicate LoggedVeto<G>(plugin: Plugin<G>, g: G, chunks: seq<ChunkId>, p: Pair, line: string)
    requires p.ai < |chunks| && p.bi < |chunks|
  {
    var o := Evaluate(plugin, g, chunks[p.ai], chunks[p.bi]);
    o.Vetoed? && line == LogLine(o.reason)
  }

  /** The log has a line for every vetoed pair, naming the strategy's reason, and no
      line that does not come from a veto. */
  lemma {:induction false} LogRecordsVetoes<G>(plugin: Plugin<G>, g: G, chunks: seq<ChunkId>, ps: seq<Pair>)
    requires InRange(chunks, ps)
    ensures forall p :: p in ps && Evaluate(plugin, g, chunks[p.ai], chunks[p.bi]).Vetoed? ==>
              LogLine(Evaluate(plugin, g, chunks[p.ai], chunks[p.bi]).reason) in Log(plugin, g, chunks, ps)
    ensures forall line :: line in Log(plugin, g, chunks, ps) ==>
              exists p :: p in ps && LoggedVeto(plugin, g, chunks, p, line)
  {
    if |ps| > 0 {
      LogRecordsVetoes(plugin, g, chunks, ps[1..]);
      assert ps[0] in ps;
    }
  }

  /** A pair the pass may merge, by positions: both chunks non-initial, the inner one
      at j earlier than the outer one at i, integrable, and not vetoed. */
  ghost predicate Eligible<G>(plugin: Plugin<G>, g: G, chunks: seq<ChunkId>, i: int, j: int) {
    && Visited(plugin.port, g, chunks, i, j)
    && plugin.port.canChunksBeIntegrated(g, chunks[i], chunks[j])
    && StrategyPermits(plugin, g, chunks[i], chunks[j])
  }

  /** The surviving pairs of a pass: exactly the eligible ones, in visiting order. */
  lemma {:induction false} SurvivorsEligible<G>(plugin: Plugin<G>, g: G, chunks: seq<ChunkId>)
    requires Distinct(chunks)
    ensures var ps := Pairs(plugin.port, g, chunks);
            && InRange(chunks, ps)
            && RowMajorSorted(Survivors(plugin, g, chunks, ps))
            && forall p :: p in Survivors(plugin, g, chunks, ps) <==> Eligible(plugin, g, chunks, p.ai, p.bi)
  {
    SurvivorsSorted(plugin, g, chunks, Pairs(plugin.port, g, chunks));
  }

  /** The candidate list of a pass (the `combinations` array before sorting). */
  function Candidates<G>(plugin: Plugin<G>, g: G, chunks: seq<ChunkId>): (cs: seq<Candidate>)
    requires Distinct(chunks)
    ensures forall c :: c in cs ==>
              && c.a in chunks && c.b in chunks
              && Eligible(plugin, g, chunks, IndexOf(chunks, c.a), IndexOf(chunks, c.b))
              && c.improvement == Improvement(plugin.port, g, c.a, c.b)
    ensures forall i, j :: Eligible(plugin, g, chunks, i, j) ==>
              Candidate(chunks[i], chunks[j], Improvement(plugin.port, g, chunks[i], chunks[j])) in cs
  {
    var ps := Pairs(plugin.port, g, chunks);
    SurvivorsEligible(plugin, g, chunks);
    var ss := Survivors(plugin, g, chunks, ps);
    var cs := Combinations(plugin, g, chunks, ss);
    assert forall c :: c in cs ==>
             && c.a in chunks && c.b in chunks
             && Eligible(plugin, g, chunks, IndexOf(chunks, c.a), IndexOf(chunks, c.b))
             && c.improvement == Improvement(plugin.port, g, c.a, c.b) by {
      forall c | c in cs
        ensures && c.a in chunks && c.b in chunks
                && Eligible(plugin, g, chunks, IndexOf(chunks, c.a), IndexOf(chunks, c.b))
                && c.improvement == Improvement(plugin.port, g, c.a, c.b)
      {
        var k :| 0 <= k < |cs| && cs[k] == c;
        assert ss[k] in ss;
        IndexOfDistinct(chunks, ss[k].ai);
        IndexOfDistinct(chunks, ss[k].bi);
      }
    }
    assert forall i, j :: Eligible(plugin, g, chunks, i, j) ==>
             Candidate(chunks[i], chunks[j], Improvement(plugin.port, g, chunks[i], chunks[j])) in cs by {
      forall i, j | Eligible(plugin, g, chunks, i, j)
        ensures Candidate(chunks[i], chunks[j], Improvement(plugin.port, g, chunks[i], chunks[j])) in cs
      {
        var k := IndexOf(ss, Pair(i, j));
        assert cs[k] == Candidate(chunks[i], chunks[j], Improvement(plugin.port, g, chunks[i], chunks[j]));
      }
    }
    cs
  }

  /** The result of one pass: no change, or the pair merged with the graph after the
      integration and the chunk list after the deletion. Both carry the log. */
  datatype Pass<!G> =
    | Stable(log: seq<string>)
    | Merged(pair: Candidate, graph: G, chunks: seq<ChunkId>, log: seq<string>)

  /** One run of the `optimizeChunks` callback over a chunk set without repetitions. */
  function PlanOnePass<G>(plugin: Plugin<G>, g: G, chunks: seq<ChunkId>): Pass<G>
    requires Distinct(chunks)
  {
    var ps := Pairs(plugin.port, g, chunks);
    SurvivorsEligible(plugin, g, chunks);
    var sorted := SortByImprovement(Candidates(plugin, g, chunks));
    var log := Log(plugin, g, chunks, ps);
    if |sorted| == 0 || sorted[0].improvement < plugin.minSizeReduce then Stable(log)
    else
      var pair := sorted[0];
      Merged(pair, plugin.port.integrateChunks(g, pair.b, pair.a), Delete(chunks, pair.a), log)
  }

  /** The pass's choice is the candidate at position k of the surviving pairs, the
      first of them with the largest improvement. */
  lemma {:induction false} Choice<G>(plugin: Plugin<G>, g: G, chunks: seq<ChunkId>) returns (ss: seq<Pair>, k: nat)
    requires Distinct(chunks)
    requires PlanOnePass(plugin, g, chunks).Merged?
    ensures RowMajorSorted(ss)
    ensures forall p :: p in ss <==> Eligible(plugin, g, chunks, p.ai, p.bi)
    ensures k < |ss|
    ensures PlanOnePass(plugin, g, chunks).pair
            == Candidate(chunks[ss[k].ai], chunks[ss[k].bi],
                         Improvement(plugin.port, g, chunks[ss[k].ai], chunks[ss[k].bi]))
    ensures forall l :: 0 <= l < |ss| ==>
              Improvement(plugin.port, g, chunks[ss[l].ai], chunks[ss[l].bi])
              <= PlanOnePass(plugin, g, chunks).pair.improvement
    ensures forall l :: 0 <= l < k ==>
              Improvement(plugin.port, g, chunks[ss[l].ai], chunks[ss[l].bi])
              < PlanOnePass(plugin, g, chunks).pair.improvement
  {
    var ps := Pairs(plugin.port, g, chunks);
    SurvivorsEligible(plugin, g, chunks);
    ss := Survivors(plugin, g, chunks, ps);
    var cs := Combinations(plugin, g, chunks, ss);
    assert Candidates(plugin, g, chunks) == cs;
    SortHead(cs);
    k := ArgMax(cs);
  }

  /** A merged pair is eligible: neither chunk can be initial, the surviving chunk `b`
      comes before the absorbed chunk `a`, the graph can integrate them, the strategy
      did not veto them, and their improvement is the size ratio and reaches the
      threshold. */
  lemma PassMergesEligiblePair<G>(plugin: Plugin<G>, g: G, chunks: seq<ChunkId>)
    requires Distinct(chunks)
    ensures var r := PlanOnePass(plugin, g, chunks);
            r.Merged? ==>
              && r.pair.a in chunks && r.pair.b in chunks && r.pair.a != r.pair.b
              && Eligible(plugin, g, chunks, IndexOf(chunks, r.pair.a), IndexOf(chunks, r.pair.b))
              && !plugin.port.canBeInitial(g, r.pair.a) && !plugin.port.canBeInitial(g, r.pair.b)
              && r.pair.improvement == Improvement(plugin.port, g, r.pair.a, r.pair.b)
              && r.pair.improvement >= plugin.minSizeReduce
  {
    if PlanOnePass(plugin, g, chunks).Merged? {
      var ss, k := Choice(plugin, g, chunks);
      assert ss[k] in ss;
      IndexOfDistinct(chunks, ss[k].ai);
      IndexOfDistinct(chunks, ss[k].bi);
    }
  }

  /** The merged pair has the largest improvement of all eligible pairs. */
  lemma PassPicksBest<G>(plugin: Plugin<G>, g: G, chunks: seq<ChunkId>)
    requires Distinct(chunks)
    ensures var r := PlanOnePass(plugin, g, chunks);
            r.Merged? ==>
              forall i, j :: Eligible(plugin, g, chunks, i, j) ==>
                Improvement(plugin.port, g, chunks[i], chunks[j]) <= r.pair.improvement
  {
    if PlanOnePass(plugin, g, chunks).Merged? {
      var ss, k := Choice(plugin, g, chunks);
      forall i, j | Eligible(plugin, g, chunks, i, j)
        ensures Improvement(plugin.port, g, chunks[i], chunks[j]) <= PlanOnePass(plugin, g, chunks).pair.improvement
      {
        var l := IndexOf(ss, Pair(i, j));
        assert ss[l] == Pair(i, j);
      }
    }
  }

  /** Ties go to the pair visited first: every eligible pair visited before the merged
      pair has a strictly smaller improvement. */
  lemma PassBreaksTiesByVisitOrder<G>(plugin: Plugin<G>, g: G, chunks: seq<ChunkId>)
    requires Distinct(chunks)
    ensures var r := PlanOnePass(plugin, g, chunks);
            r.Merged? ==>
              && r.pair.a in chunks && r.pair.b in chunks
              && forall i, j ::
                   && Eligible(plugin, g, chunks, i, j)
                   && RowMajorBefore(i, j, IndexOf(chunks, r.pair.a), IndexOf(chunks, r.pair.b))
                   ==> Improvement(plugin.port, g, chunks[i], chunks[j]) < r.pair.improvement
  {
    if PlanOnePass(plugin, g, chunks).Merged? {
      var ss, k := Choice(plugin, g, chunks);
      var best := ss[k];
      assert best in ss;
      IndexOfDistinct(chunks, best.ai);
      IndexOfDistinct(chunks, best.bi);
      forall i, j | Eligible(plugin, g, chunks, i, j) && RowMajorBefore(i, j, best.ai, best.bi)
        ensures Improvement(plugin.port, g, chunks[i], chunks[j]) < PlanOnePass(plugin, g, chunks).pair.improvement
      {
        var l := IndexOf(ss, Pair(i, j));
        assert ss[l] == Pair(i, j);
        EarlierPosition(ss, l, k);
      }
    }
  }

  /** In a list sorted by visiting order, an element visited before the one at
      position k sits at an earlier position. */
  lemma EarlierPosition(ss: seq<Pair>, l: nat, k: nat)
    requires RowMajorSorted(ss) && l < |ss| && k < |ss|
    requires Before(ss[l], ss[k])
    ensures l < k
  {
  }

  /** A pass changes nothing exactly when every eligible pair's improvement is below
      the threshold (in particular when there is no eligible pair). */
  lemma PassStableIff<G>(plugin: Plugin<G>, g: G, chunks: seq<ChunkId>)
    requires Distinct(chunks)
    ensures PlanOnePass(plugin, g, chunks).Stable? <==>
            forall i, j :: Eligible(plugin, g, chunks, i, j) ==>
              Improvement(plugin.port, g, chunks[i], chunks[j]) < plugin.minSizeReduce
  {
    var r := PlanOnePass(plugin, g, chunks);
    if r.Merged? {
      PassMergesEligiblePair(plugin, g, chunks);
      IndexOfDistinct(chunks, IndexOf(chunks, r.pair.a));
      IndexOfDistinct(chunks, IndexOf(chunks, r.pair.b));
    } else {
      var cs := Candidates(plugin, g, chunks);
      var sorted := SortByImprovement(cs);
      forall i, j | Eligible(plugin, g, chunks, i, j)
        ensures Improvement(plugin.port, g, chunks[i], chunks[j]) < plugin.minSizeReduce
      {
        var c := Candidate(chunks[i], chunks[j], Improvement(plugin.port, g, chunks[i], chunks[j]));
        assert c in multiset(sorted);
        SortHead(cs);
        var k :| 0 <= k < |cs| && cs[k] == c;
        assert c.improvement <= cs[ArgMax(cs)].improvement;
      }
    }
  }

  /** A merge takes exactly the absorbed chunk `a` out of the chunk list, keeps every
      other chunk in place (the surviving chunk `b` among them) and integrates `a` into
      `b` in the graph. */
  lemma PassRemovesOnlyAbsorbed<G>(plugin: Plugin<G>, g: G, chunks: seq<ChunkId>)
    requires Distinct(chunks)
    ensures var r := PlanOnePass(plugin, g, chunks);
            r.Merged? ==>
              && r.pair.a in chunks
              && r.chunks == chunks[..IndexOf(chunks, r.pair.a)] + chunks[IndexOf(chunks, r.pair.a) + 1..]
              && |r.chunks| == |chunks| - 1
              && Distinct(r.chunks)
              && r.pair.b in r.chunks
              && r.graph == plugin.port.integrateChunks(g, r.pair.b, r.pair.a)
  {
    var r := PlanOnePass(plugin, g, chunks);
    if r.Merged? {
      var a, b := r.pair.a, r.pair.b;
      PassPairMembers(plugin, g, chunks);
      PassShape(plugin, g, chunks);
      assert r.chunks == Delete(chunks, a);
      DeletePresent(chunks, a, b);
    }
  }

  /** The two chunks of a merged pair are distinct members of the chunk list. */
  lemma PassPairMembers<G>(plugin: Plugin<G>, g: G, chunks: seq<ChunkId>)
    requires Distinct(chunks)
    ensures var r := PlanOnePass(plugin, g, chunks);
            r.Merged? ==> r.pair.a in chunks && r.pair.b in chunks && r.pair.a != r.pair.b
  {
    PassMergesEligiblePair(plugin, g, chunks);
  }

  /** A merging pass deletes the absorbed chunk and integrates it into the other. */
  lemma PassShape<G>(plugin: Plugin<G>, g: G, chunks: seq<ChunkId>)
    requires Distinct(chunks)
    ensures var r := PlanOnePass(plugin, g, chunks);
            r.Merged? ==>
              && r.chunks == Delete(chunks, r.pair.a)
              && r.graph == plugin.port.integrateChunks(g, r.pair.b, r.pair.a)
  {
  }

  /** With every pair integrable and no strategy, every visited pair becomes a
      candidate: m non-initial chunks give m * (m - 1) / 2 candidates. */
  lemma CandidatesCountWithoutFilters<G>(plugin: Plugin<G>, g: G, chunks: seq<ChunkId>)
    requires Distinct(chunks)
    requires plugin.mergeStrategy.None?
    requires forall a, b :: plugin.port.canChunksBeIntegrated(g, a, b)
    ensures var m: int := NonInitialCount(plugin.port, g, chunks);
            2 * |Candidates(plugin, g, chunks)| == m * (m - 1)
  {
    var ps := Pairs(plugin.port, g, chunks);
    SurvivorsEligible(plugin, g, chunks);
    SurvivorsAll(plugin, g, chunks, ps);
    PairsCount(plugin.port, g, chunks);
  }

  /** When every pair scores, filtering keeps every pair. */
  lemma {:induction false} SurvivorsAll<G>(plugin: Plugin<G>, g: G, chunks: seq<ChunkId>, ps: seq<Pair>)
    requires InRange(chunks, ps)
    requires forall p :: p in ps ==> Evaluate(plugin, g, chunks[p.ai], chunks[p.bi]).Scored?
    ensures Survivors(plugin, g, chunks, ps) == ps
  {
    if |ps| > 0 {
      SurvivorsAll(plugin, g, chunks, ps[1..]);
    }
  }

  /** The host's loop: run the pass until it reports no change. Each merge removes one
      chunk, so at most |chunks| - 1 merges happen, and the final chunk list is one on
      which a further pass changes nothing. */
  method Optimize<G>(port: Port<G>, options: Options, g0: G, chunks0: seq<ChunkId>)
    returns (g: G, chunks: seq<ChunkId>, merges: nat, log: seq<string>)
    requires Distinct(chunks0)
    ensures Distinct(chunks)
    ensures PlanOnePass(Apply(port, options), g, chunks).Stable?
    ensures |chunks| + merges == |chunks0|
    ensures forall c :: c in chunks ==> c in chunks0
    ensures merges == 0 || merges < |chunks0|
  {
    var plugin := Apply(port, options);
    g, chunks, merges, log := g0, chunks0, 0, [];
    var pass := PlanOnePass(plugin, g, chunks);
    while pass.Merged?
      invariant Distinct(chunks)
      invariant pass == PlanOnePass(plugin, g, chunks)
      invariant |chunks| + merges == |chunks0|
      invariant forall c :: c in chunks ==> c in chunks0
      invariant merges == 0 || |chunks| > 0
      decreases |chunks|
    {
      PassRemovesOnlyAbsorbed(plugin, g, chunks);
      log := log + pass.log;
      g, chunks, merges := pass.graph, pass.chunks, merges + 1;
      pass := PlanOnePass(plugin, g, chunks);
    }
    log := log + pass.log;
  }

  /** The chunk graph of the worked example: two chunks of 15 size units each that
      share 10 units (20 once integrated), and the entry chunk `entry`. */
  function ExamplePort(entry: ChunkId): Port<int> {
    Port(
      (g: int, c: ChunkId) => c == entry,
      (g: int, a: ChunkId, b: ChunkId) => true,
      (g: int, c: ChunkId) => [],
      (g: int, c: ChunkId) => 15,
      (g: int, b: ChunkId, a: ChunkId) => 20 as Pos,
      (g: int, b: ChunkId, a: ChunkId) => g)
  }

  /** In the worked example every pair scores 30 / 20 = 1.5, and with the default
      options that is also the threshold. */
  lemma ExampleScores(entry: ChunkId)
    ensures Apply(ExamplePort(entry), Defaults).minSizeReduce == 1.5
    ensures Apply(ExamplePort(entry), Defaults).mergeStrategy.None?
    ensures forall g: int, a: ChunkId, b: ChunkId :: Improvement(ExamplePort(entry), g, a, b) == 1.5
  {
  }

  /** In the worked example the only eligible pair is y (position 1) with x (position 0). */
  lemma ExampleEligible(g: int, x: ChunkId, y: ChunkId, entry: ChunkId)
    requires x != y && y != entry && x != entry
    ensures forall i, j :: Eligible(Apply(ExamplePort(entry), Defaults), g, [x, y, entry], i, j) <==> i == 1 && j == 0
  {
  }

  /** The worked example with the default options, chunks listed as x, y, entry: the
      improvement is 30 / 20 = 1.5, which reaches the default threshold, so y is merged
      into x and the entry chunk stays. */
  lemma SharedContentExample(g: int, x: ChunkId, y: ChunkId, entry: ChunkId)
    requires x != y && y != entry && x != entry
    ensures var r := PlanOnePass(Apply(ExamplePort(entry), Defaults), g, [x, y, entry]);
            r.Merged? && r.pair == Candidate(y, x, 1.5) && r.chunks == [x, entry]
  {
    var plugin := Apply(ExamplePort(entry), Defaults);
    var chunks: seq<ChunkId> := [x, y, entry];
    ExampleScores(entry);
    ExampleEligible(g, x, y, entry);
    PassStableIff(plugin, g, chunks);
    var r := PlanOnePass(plugin, g, chunks);
    assert Eligible(plugin, g, chunks, 1, 0);
    assert r.Merged?;
    PassMergesEligiblePair(plugin, g, chunks);
    var ia, ib := IndexOf(chunks, r.pair.a), IndexOf(chunks, r.pair.b);
    assert ia == 1 && ib == 0;
    assert r.pair == Candidate(y, x, 1.5);
    PassRemovesOnlyAbsorbed(plugin, g, chunks);
    assert chunks[..1] + chunks[2..] == [x, entry];
  }
}
