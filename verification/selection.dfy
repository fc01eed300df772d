/** Choosing the pair to merge (src/SensibleMergingPlugin.ts, lines 93-97): the
    candidates are sorted by decreasing improvement with a stable sort and the first
    one is taken. */
module Selection {
  import opened ChunkGraph

  /** No candidate is followed by one with a larger improvement. */
  predicate Descending(s: seq<Candidate>) {
    forall i, j :: 0 <= i < j < |s| ==> s[i].improvement >= s[j].improvement
  }

  /** Inserts `x` into a descending list ahead of every candidate whose improvement
      does not exceed its own, so that `x` stays ahead of equal candidates. */
  function Insert(x: Candidate, s: seq<Candidate>): (r: seq<Candidate>)
    requires Descending(s)
    ensures Descending(r)
    ensures multiset(r) == multiset(s) + multiset{x}
    ensures |s| > 0 ==> r[0] == x || r[0] == s[0]
  {
    if |s| == 0 || x.improvement >= s[0].improvement then [x] + s
    else
      var rest := Insert(x, s[1..]);
      assert s == [s[0]] + s[1..];
      assert rest[0].improvement <= s[0].improvement;
      [s[0]] + rest
  }

  /** The stable sort by decreasing improvement: a permutation of the candidates in
      descending order. */
  function SortByImprovement(s: seq<Candidate>): (r: seq<Candidate>)
    ensures Descending(r)
    ensures multiset(r) == multiset(s)
  {
    if |s| == 0 then []
    else
      assert s == [s[0]] + s[1..];
      Insert(s[0], SortByImprovement(s[1..]))
  }

  /** The position of the first candidate with the largest improvement. */
  function ArgMax(s: seq<Candidate>): (k: nat)
    requires |s| > 0
    ensures k < |s|
    ensures forall i :: 0 <= i < |s| ==> s[i].improvement <= s[k].improvement
    ensures forall i :: 0 <= i < k ==> s[i].improvement < s[k].improvement
  {
    if |s| == 1 then 0
    else
      var t := ArgMax(s[1..]);
      if s[0].improvement >= s[1 + t].improvement then 0 else 1 + t
  }

  /** Because the sort is stable, its first element is the earliest candidate of
      largest improvement. */
  lemma {:induction false} SortHead(s: seq<Candidate>)
    requires |s| > 0
    ensures SortByImprovement(s)[0] == s[ArgMax(s)]
  {
    if |s| > 1 {
      SortHead(s[1..]);
    }
  }
}
