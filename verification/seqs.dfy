/** Facts about sequences shared by the model: distinctness, first positions,
    subsequences, deletion by value and row-major order of index pairs. */
module Seqs {

  /** No element occurs twice. */
  predicate Distinct<T(==)>(s: seq<T>) {
    forall i, j :: 0 <= i < j < |s| ==> s[i] != s[j]
  }

  /** The position of the first occurrence of `x` in `s`. */
  function IndexOf<T(==)>(s: seq<T>, x: T): (k: nat)
    requires x in s
    ensures k < |s| && s[k] == x
    ensures x !in s[..k]
  {
    if s[0] == x then 0
    else
      var k' := IndexOf(s[1..], x);
      assert s[..k' + 1] == [s[0]] + s[1..][..k'];
      k' + 1
  }

  /** In a sequence without repetitions, every position is the first occurrence of its element. */
  lemma IndexOfDistinct<T>(s: seq<T>, k: nat)
    requires Distinct(s) && k < |s|
    ensures IndexOf(s, s[k]) == k
  {
    var m := IndexOf(s, s[k]);
    assert s[k] !in s[..m];
  }

  /** Appending never moves the first occurrence of an element already present. */
  lemma IndexOfAppend<T>(s: seq<T>, t: seq<T>, x: T)
    requires x in s
    ensures IndexOf(s + t, x) == IndexOf(s, x)
  {
    var k := IndexOf(s, x);
    assert (s + t)[k] == x;
    assert (s + t)[..k] == s[..k];
    var m := IndexOf(s + t, x);
    assert x !in (s + t)[..m];
  }

  /** An element missing from `s` is first found right after it. */
  lemma IndexOfAppendNew<T>(s: seq<T>, x: T)
    requires x !in s
    ensures IndexOf(s + [x], x) == |s|
  {
    var m := IndexOf(s + [x], x);
  }

  /** `r` is obtained from `s` by deleting some elements, keeping the order of the rest. */
  predicate IsSubseq<T(==)>(r: seq<T>, s: seq<T>)
    decreases |s|
  {
    || |r| == 0
    || (&& |s| > 0
        && (|| (r[|r| - 1] == s[|s| - 1] && IsSubseq(r[..|r| - 1], s[..|s| - 1]))
            || IsSubseq(r, s[..|s| - 1])))
  }

  /** `s` with every occurrence of `x` removed, the remaining elements in their order
      (deleting from an insertion-ordered set). */
  function Delete<T(==)>(s: seq<T>, x: T): (r: seq<T>)
    ensures forall k :: 0 <= k < |r| ==> r[k] in s && r[k] != x
    ensures forall k :: 0 <= k < |s| && s[k] != x ==> s[k] in r
  {
    if |s| == 0 then []
    else
      var rest := Delete(s[1..], x);
      if s[0] == x then rest else [s[0]] + rest
  }

  /** Deleting a present element from a sequence without repetitions takes out exactly
      its one position and leaves everything before and after it in place. */
  lemma {:induction false} DeleteDistinct<T>(s: seq<T>, x: T)
    requires Distinct(s) && x in s
    ensures Delete(s, x) == s[..IndexOf(s, x)] + s[IndexOf(s, x) + 1..]
    decreases |s|
  {
    DistinctTail(s);
    if s[0] == x {
      DeleteAbsent(s[1..], x);
      assert s[..0] + s[1..] == s[1..];
    } else {
      var k := IndexOf(s[1..], x);
      DeleteDistinct(s[1..], x);
      assert IndexOf(s, x) == k + 1;
      ConsSplit(s, k);
    }
  }

  /** The tail of a sequence without repetitions has none and lacks the head. */
  lemma DistinctTail<T>(s: seq<T>)
    requires Distinct(s) && |s| > 0
    ensures Distinct(s[1..]) && s[0] !in s[1..]
  {
  }

  /** Cutting position k out of the tail and putting the head back cuts position k + 1
      out of the whole. */
  lemma ConsSplit<T>(s: seq<T>, k: nat)
    requires k + 1 < |s|
    ensures [s[0]] + (s[1..][..k] + s[1..][k + 1..]) == s[..k + 1] + s[k + 2..]
  {
    assert s[..k + 1] == [s[0]] + s[1..][..k];
    assert s[k + 2..] == s[1..][k + 1..];
  }

  /** Deleting a present element x from a sequence without repetitions leaves one
      without repetitions, one element shorter, that still holds any other element y. */
  lemma DeletePresent<T>(s: seq<T>, x: T, y: T)
    requires Distinct(s) && x in s && y in s && x != y
    ensures Delete(s, x) == s[..IndexOf(s, x)] + s[IndexOf(s, x) + 1..]
    ensures |Delete(s, x)| == |s| - 1
    ensures Distinct(Delete(s, x))
    ensures y in Delete(s, x)
  {
    assert s[IndexOf(s, y)] != x;
    DeleteDistinct(s, x);
    RemoveAtDistinct(s, IndexOf(s, x));
  }

  /** Removing one position from a sequence without repetitions leaves one without
      repetitions, one element shorter. */
  lemma RemoveAtDistinct<T>(s: seq<T>, k: nat)
    requires Distinct(s) && k < |s|
    ensures Distinct(s[..k] + s[k + 1..])
    ensures |s[..k] + s[k + 1..]| == |s| - 1
  {
    var r := s[..k] + s[k + 1..];
    forall i, j | 0 <= i < j < |r|
      ensures r[i] != r[j]
    {
      var i' := if i < k then i else i + 1;
      var j' := if j < k then j else j + 1;
      assert r[i] == s[i'] && r[j] == s[j'];
    }
  }

  /** Deleting an element that is not there changes nothing. */
  lemma {:induction false} DeleteAbsent<T>(s: seq<T>, x: T)
    requires x !in s
    ensures Delete(s, x) == s
    decreases |s|
  {
    if |s| > 0 {
      DeleteAbsent(s[1..], x);
      assert s == [s[0]] + s[1..];
    }
  }

  /** Position (i, j) comes strictly before position (p, q) when the outer index is
      scanned first and the inner index second. */
  predicate RowMajorBefore(i: int, j: int, p: int, q: int) {
    i < p || (i == p && j < q)
  }
}
