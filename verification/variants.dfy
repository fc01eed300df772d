/** The variant merge strategy (src/VariantMergeStrategy.ts): a chunk's modules are
    mapped by a user-supplied generator to `{path, variant}` records, duplicates are
    collapsed, and two chunks may not merge when they carry different variants of the
    same asset path. */
module Variants {
  import opened Wrappers
  import opened Seqs
  import opened Config

  /** Which variant of which logical asset a module belongs to. A record is identified
      by its (path, variant) pair. */
  datatype VariantRecord = VariantRecord(path: Option<string>, variant: Option<string>)

  /** The user's `generateVariants`: resource paths to variant records. */
  type Generator = seq<string> -> seq<VariantRecord>

  /** The conflicting pair a denial names: the shared path and the two variants. */
  datatype Conflict = Conflict(path: Option<string>, variantA: Option<string>, variantB: Option<string>)

  // ---------------------------------------------------------------------------
  // De-duplication

  /** `uniqueModules`: the input with every repeated (path, variant) pair dropped, so
      that each pair is kept at its first occurrence. Kept records are exactly the
      input's records, none twice, in the order in which they first occur. */
  function Unique(arr: seq<VariantRecord>): (r: seq<VariantRecord>)
    ensures Distinct(r)
    ensures forall x :: x in r <==> x in arr
    ensures forall i, j :: 0 <= i < j < |r| ==> IndexOf(arr, r[i]) < IndexOf(arr, r[j])
    decreases |arr|
  {
    if |arr| == 0 then []
    else
      var init := arr[..|arr| - 1];
      var x := arr[|arr| - 1];
      var prev := Unique(init);
      assert arr == init + [x];
      IndexOfPrefixes(init, [x]);
      if x in prev then prev
      else
        IndexOfAppendNew(init, x);
        prev + [x]
  }

  /** The de-duplicated list is obtained from the input by deleting records. */
  lemma {:induction false} UniqueIsSubseq(arr: seq<VariantRecord>)
    ensures IsSubseq(Unique(arr), arr)
    decreases |arr|
  {
    if |arr| > 0 {
      var init := arr[..|arr| - 1];
      var x := arr[|arr| - 1];
      var prev := Unique(init);
      UniqueIsSubseq(init);
      if x !in prev {
        assert (prev + [x])[..|prev|] == prev;
      }
    }
  }

  /** Appending keeps the first position of every element already present. */
  lemma IndexOfPrefixes(s: seq<VariantRecord>, t: seq<VariantRecord>)
    ensures forall x :: x in s ==> IndexOf(s + t, x) == IndexOf(s, x)
  {
    forall x | x in s
      ensures IndexOf(s + t, x) == IndexOf(s, x)
    {
      IndexOfAppend(s, t, x);
    }
  }

  /** The nested `cache[path][variant]` of `uniqueModules` records exactly the pairs
      already pushed to the result. */
  ghost predicate CacheMirrors(cache: map<Option<string>, set<Option<string>>>, res: seq<VariantRecord>) {
    forall p, v :: (p in cache && v in cache[p]) <==> VariantRecord(p, v) in res
  }

  /** `uniqueModules` as written: one pass with a two-level cache keyed by path, then by
      variant. It computes `Unique`. */
  method UniqueModules(arr: seq<VariantRecord>) returns (res: seq<VariantRecord>)
    ensures res == Unique(arr)
  {
    res := [];
    var cache: map<Option<string>, set<Option<string>>> := map[];
    var i := 0;
    while i < |arr|
      invariant 0 <= i <= |arr|
      invariant res == Unique(arr[..i])
      invariant CacheMirrors(cache, res)
    {
      var x := arr[i];
      assert arr[..i + 1][..i] == arr[..i];
      if !(x.path in cache && x.variant in cache[x.path]) {
        if x.path in cache {
          cache := cache[x.path := cache[x.path] + {x.variant}];
        } else {
          cache := cache[x.path := {x.variant}];
        }
        res := res + [x];
      }
      i := i + 1;
    }
    assert arr[..i] == arr;
  }

  /** A list without repetitions is its own de-duplication. */
  lemma {:induction false} UniqueOfDistinct(s: seq<VariantRecord>)
    requires Distinct(s)
    ensures Unique(s) == s
    decreases |s|
  {
    if |s| > 0 {
      var init := s[..|s| - 1];
      UniqueOfDistinct(init);
      assert s[|s| - 1] !in init;
      assert s == init + [s[|s| - 1]];
    }
  }

  /** De-duplicating twice is the same as de-duplicating once. */
  lemma UniqueIdempotent(arr: seq<VariantRecord>)
    ensures Unique(Unique(arr)) == Unique(arr)
  {
    UniqueOfDistinct(Unique(arr));
  }

  // ---------------------------------------------------------------------------
  // Conflict detection

  /** Same asset path, different variant. */
  predicate Conflicting(x: VariantRecord, y: VariantRecord) {
    x.path == y.path && x.variant != y.variant
  }

  /** Some record of `va` conflicts with some record of `vb`. */
  ghost predicate HasConflict(va: seq<VariantRecord>, vb: seq<VariantRecord>) {
    exists i, j :: 0 <= i < |va| && 0 <= j < |vb| && Conflicting(va[i], vb[j])
  }

  /** (i, j) is the first conflicting pair met when `va` is scanned in the outer loop
      and `vb` in the inner loop. */
  ghost predicate FirstConflictAt(va: seq<VariantRecord>, vb: seq<VariantRecord>, i: int, j: int) {
    && 0 <= i < |va| && 0 <= j < |vb|
    && Conflicting(va[i], vb[j])
    && forall p, q :: 0 <= p < |va| && 0 <= q < |vb| && RowMajorBefore(p, q, i, j) ==> !Conflicting(va[p], vb[q])
  }

  /** The nested loops of `mergeStrategy`, resumed at outer position `i` and inner
      position `j`: the positions of the first conflict from there on, if any. */
  function FindConflictFrom(va: seq<VariantRecord>, vb: seq<VariantRecord>, i: nat, j: nat): (r: Option<(nat, nat)>)
    requires i <= |va| && j <= |vb|
    ensures r.Some? ==> r.value.0 < |va| && r.value.1 < |vb| && Conflicting(va[r.value.0], vb[r.value.1])
    ensures r.Some? ==> !RowMajorBefore(r.value.0, r.value.1, i, j)
    ensures forall p, q ::
              && 0 <= p < |va| && 0 <= q < |vb| && !RowMajorBefore(p, q, i, j)
              && (r.Some? ==> RowMajorBefore(p, q, r.value.0, r.value.1))
              ==> !Conflicting(va[p], vb[q])
    decreases |va| - i, |vb| - j
  {
    if i == |va| then None
    else if j == |vb| then FindConflictFrom(va, vb, i + 1, 0)
    else if Conflicting(va[i], vb[j]) then Some((i, j))
    else FindConflictFrom(va, vb, i, j + 1)
  }

  /** The first conflicting pair in row-major order, or none when no pair conflicts. */
  function FindConflict(va: seq<VariantRecord>, vb: seq<VariantRecord>): (r: Option<(nat, nat)>)
    ensures r.None? <==> !HasConflict(va, vb)
    ensures r.Some? ==> FirstConflictAt(va, vb, r.value.0, r.value.1)
  {
    FindConflictFrom(va, vb, 0, 0)
  }

  /** How a template literal renders an optional string. */
  function Show(s: Option<string>): string {
    match s
    case Some(v) => v
    case None => "undefined"
  }

  /** The denial message naming a conflict. */
  function Reason(c: Conflict): string {
    "Same asset but differing variants: " + Show(c.path) + " - " + Show(c.variantA) + " / " + Show(c.variantB)
  }

  /** The conflict found between the de-duplicated variant lists of two sides, if any. */
  function Judge(va: seq<VariantRecord>, vb: seq<VariantRecord>): (c: Option<Conflict>)
    ensures c.None? <==> !HasConflict(va, vb)
    ensures c.Some? ==> exists i, j ::
              FirstConflictAt(va, vb, i, j) && c.value == Conflict(va[i].path, va[i].variant, vb[j].variant)
  {
    match FindConflict(va, vb)
    case None => None
    case Some((i, j)) =>
      assert FirstConflictAt(va, vb, i, j);
      Some(Conflict(va[i].path, va[i].variant, vb[j].variant))
  }

  /** `mergeStrategy`: deny exactly when some generated record of side A and some
      generated record of side B share a path but differ in variant, naming the first
      such pair of the de-duplicated lists; allow otherwise. */
  function MergeStrategy(generate: Generator, aModules: seq<string>, bModules: seq<string>): (d: Decision)
    ensures !d.allowMerge <==> HasConflict(generate(aModules), generate(bModules))
    ensures d.allowMerge <==> d.reason.None?
    ensures !d.allowMerge ==>
              var va, vb := Unique(generate(aModules)), Unique(generate(bModules));
              exists i, j :: FirstConflictAt(va, vb, i, j) && d.reason == Some(Reason(Conflict(va[i].path, va[i].variant, vb[j].variant)))
  {
    var va := Unique(generate(aModules));
    var vb := Unique(generate(bModules));
    HasConflictUnique(generate(aModules), generate(bModules));
    match Judge(va, vb)
    case None => Decision(true, None)
    case Some(c) => Decision(false, Some(Reason(c)))
  }

  /** `VariantMergeStrategy(generateVariants)`: the strategy to put in the plugin's
      options. */
  function VariantMergeStrategy(generate: Generator): Strategy {
    (aModules: seq<string>, bModules: seq<string>) => MergeStrategy(generate, aModules, bModules)
  }

  /** Conflicts depend only on which records occur, so de-duplication does not change
      whether two sides conflict. */
  lemma HasConflictUnique(va: seq<VariantRecord>, vb: seq<VariantRecord>)
    ensures HasConflict(Unique(va), Unique(vb)) <==> HasConflict(va, vb)
  {
    var ua, ub := Unique(va), Unique(vb);
    if HasConflict(va, vb) {
      var i, j :| 0 <= i < |va| && 0 <= j < |vb| && Conflicting(va[i], vb[j]);
      var p := IndexOf(ua, va[i]);
      var q := IndexOf(ub, vb[j]);
      assert Conflicting(ua[p], ub[q]);
    }
    if HasConflict(ua, ub) {
      var p, q :| 0 <= p < |ua| && 0 <= q < |ub| && Conflicting(ua[p], ub[q]);
      var i := IndexOf(va, ua[p]);
      var j := IndexOf(vb, ub[q]);
      assert Conflicting(va[i], vb[j]);
    }
  }

  /** Conflict is symmetric in the two sides. */
  lemma HasConflictSymmetric(va: seq<VariantRecord>, vb: seq<VariantRecord>)
    ensures HasConflict(va, vb) <==> HasConflict(vb, va)
  {
    if HasConflict(va, vb) {
      var i, j :| 0 <= i < |va| && 0 <= j < |vb| && Conflicting(va[i], vb[j]);
      assert Conflicting(vb[j], va[i]);
    }
    if HasConflict(vb, va) {
      var j, i :| 0 <= j < |vb| && 0 <= i < |va| && Conflicting(vb[j], va[i]);
      assert Conflicting(va[i], vb[j]);
    }
  }

  /** Whether a merge is allowed does not depend on which chunk is side A. */
  lemma MergeStrategySymmetric(generate: Generator, aModules: seq<string>, bModules: seq<string>)
    ensures MergeStrategy(generate, aModules, bModules).allowMerge == MergeStrategy(generate, bModules, aModules).allowMerge
  {
    HasConflictSymmetric(generate(aModules), generate(bModules));
  }

  /** A side whose generator yields no records never causes a denial. */
  lemma EmptySideAllows(generate: Generator, aModules: seq<string>, bModules: seq<string>)
    requires |generate(aModules)| == 0 || |generate(bModules)| == 0
    ensures MergeStrategy(generate, aModules, bModules) == Decision(true, None)
  {
  }

  /** A generator for the worked example: the module "a.ios.js" is the "ios" variant of
      asset "x", every other module list the "android" variant of it. */
  function ExampleGenerator(modules: seq<string>): seq<VariantRecord> {
    if modules == ["a.ios.js"] then [VariantRecord(Some("x"), Some("ios"))]
    else [VariantRecord(Some("x"), Some("android"))]
  }

  /** The worked example: an "ios" and an "android" variant of asset "x" on the two
      sides are refused with a message naming both; the same variant on both sides is not. */
  lemma DifferingVariantsExample()
    ensures MergeStrategy(ExampleGenerator, ["a.ios.js"], ["a.android.js"])
              == Decision(false, Some("Same asset but differing variants: x - ios / android"))
    ensures MergeStrategy(ExampleGenerator, ["a.ios.js"], ["a.ios.js"]) == Decision(true, None)
  {
    var ios, android := VariantRecord(Some("x"), Some("ios")), VariantRecord(Some("x"), Some("android"));
    assert ExampleGenerator(["a.android.js"]) == [android];
    assert Unique([ios]) == [ios];
    assert Unique([android]) == [android];
    assert FindConflict([ios], [android]) == Some((0, 0));
    assert Judge([ios], [android]) == Some(Conflict(Some("x"), Some("ios"), Some("android")));
    assert Reason(Conflict(Some("x"), Some("ios"), Some("android")))
        == "Same asset but differing variants: x - ios / android";
    assert FindConflict([ios], [ios]) == None by {
      assert FindConflictFrom([ios], [ios], 0, 1) == None;
    }
  }
}
