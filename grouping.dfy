/**
 * The positional interval-partitioning primitive shared by the day and block
 * segmenters: find the items that satisfy a marker predicate, pair each
 * marker's index with the next one's, and cut the source at those pairs.
 *
 * The functions are the specification; the methods are the loops of the
 * source, each proved equal to its function.
 */
module Grouping {

  /** The `(index, item)` pairs of `s` whose items satisfy `p`, in index order. */
  function MatchesOf<T>(p: T -> bool, s: seq<T>): (m: seq<(nat, T)>)
    ensures forall j :: 0 <= j < |m| ==> m[j].0 < |s| && s[m[j].0] == m[j].1 && p(m[j].1)
    ensures Ascending(m)
    decreases |s|
  {
    if |s| == 0 then []
    else
      var prefix := MatchesOf(p, s[..|s| - 1]);
      if p(s[|s| - 1]) then prefix + [(|s| - 1, s[|s| - 1])] else prefix
  }

  /** `partition_by`: one pass over the source, appending every match. */
  method PartitionBy<T>(p: T -> bool, source: seq<T>) returns (matches: seq<(nat, T)>)
    ensures matches == MatchesOf(p, source)
    ensures forall j :: 0 <= j < |matches| ==>
      matches[j].0 < |source| && source[matches[j].0] == matches[j].1 && p(matches[j].1)
    ensures forall i :: 0 <= i < |source| && p(source[i]) ==>
      exists j :: 0 <= j < |matches| && matches[j].0 == i
  {
    matches := [];
    var idx := 0;
    while idx < |source|
      invariant 0 <= idx <= |source|
      invariant matches == MatchesOf(p, source[..idx])
    {
      assert source[..idx + 1][..idx] == source[..idx];
      if p(source[idx]) {
        matches := matches + [(idx, source[idx])];
      }
      idx := idx + 1;
    }
    assert source[..idx] == source;
    forall i | 0 <= i < |source| && p(source[i])
      ensures exists j :: 0 <= j < |matches| && matches[j].0 == i
    {
      MatchesOfComplete(p, source, i);
    }
  }

  /** Every item that satisfies `p` is reported by `MatchesOf`. */
  lemma {:induction false} MatchesOfComplete<T>(p: T -> bool, s: seq<T>, i: nat)
    requires i < |s| && p(s[i])
    ensures exists j :: 0 <= j < |MatchesOf(p, s)| && MatchesOf(p, s)[j].0 == i
    decreases |s|
  {
    var m := MatchesOf(p, s);
    if i == |s| - 1 {
      assert m[|m| - 1].0 == i;
    } else {
      var prefix := MatchesOf(p, s[..|s| - 1]);
      MatchesOfComplete(p, s[..|s| - 1], i);
      var j :| 0 <= j < |prefix| && prefix[j].0 == i;
      assert m[j] == prefix[j];
    }
  }

  /** A position `MatchesOf` does not report holds an item that fails `p`. */
  lemma {:induction false} NotMatched<T>(p: T -> bool, s: seq<T>, i: nat)
    requires i < |s|
    requires forall k :: 0 <= k < |MatchesOf(p, s)| ==> MatchesOf(p, s)[k].0 != i
    ensures !p(s[i])
    decreases |s|
  {
    var m := MatchesOf(p, s);
    if i == |s| - 1 {
      if |m| > 0 {
        assert m[|m| - 1].0 != i;
      }
    } else {
      var prefix := MatchesOf(p, s[..|s| - 1]);
      assert forall k :: 0 <= k < |prefix| ==> prefix[k] == m[k];
      NotMatched(p, s[..|s| - 1], i);
    }
  }

  /** Match positions strictly increase. */
  predicate Ascending<T>(m: seq<(nat, T)>) {
    forall j, k :: 0 <= j < k < |m| ==> m[j].0 < m[k].0
  }

  /** The consecutive index pairs of a match list. */
  function SeriesPairs<T>(m: seq<(nat, T)>): seq<(nat, nat)> {
    if |m| <= 1 then [] else seq(|m| - 1, j requires 0 <= j < |m| - 1 => (m[j].0, m[j + 1].0))
  }

  /** `get_pairwise_series_indexes`: the k-1 consecutive pairs of k matches, none for k <= 1. */
  method GetPairwiseSeriesIndexes<T>(maskedArr: seq<(nat, T)>) returns (out: seq<(nat, nat)>)
    ensures out == SeriesPairs(maskedArr)
    ensures |out| == if |maskedArr| == 0 then 0 else |maskedArr| - 1
    ensures forall j :: 0 <= j < |out| ==> out[j] == (maskedArr[j].0, maskedArr[j + 1].0)
  {
    if |maskedArr| == 0 {
      return [];
    }
    var indices := seq(|maskedArr|, i requires 0 <= i < |maskedArr| => maskedArr[i].0);
    out := [];
    var current := 0;
    while current + 1 < |indices|
      invariant 0 <= current < |indices|
      invariant |out| == current
      invariant forall j :: 0 <= j < current ==> out[j] == (maskedArr[j].0, maskedArr[j + 1].0)
    {
      out := out + [(indices[current], indices[current + 1])];
      current := current + 1;
    }
    if |maskedArr| > 1 {
      var spec := SeriesPairs(maskedArr);
      assert |spec| == |out|;
      assert forall j :: 0 <= j < |out| ==> spec[j] == out[j];
    }
  }

  /** Python's `s[lo:hi]` for non-negative bounds: out-of-range bounds are clipped, an empty range is `[]`. */
  function Slice<T>(s: seq<T>, lo: nat, hi: nat): (r: seq<T>)
    ensures lo <= hi <= |s| ==> r == s[lo..hi]
  {
    var a := if lo < |s| then lo else |s|;
    var b := if hi < |s| then hi else |s|;
    if a < b then s[a..b] else []
  }

  /** `get_groups`: the slice of the source for every index pair. */
  function GetGroups<T>(indexList: seq<(nat, nat)>, source: seq<T>): seq<seq<T>> {
    seq(|indexList|, j requires 0 <= j < |indexList| => Slice(source, indexList[j].0, indexList[j].1))
  }

  /** The pairs `group_source_by` cuts at: the series pairs, closed by a pair running to the end when there is one. */
  function ClosedPairs<T>(m: seq<(nat, T)>, n: nat): seq<(nat, nat)> {
    var pairs := SeriesPairs(m);
    if |pairs| > 0 then pairs + [(pairs[|pairs| - 1].1, n)] else pairs
  }

  /** What `group_source_by` returns. */
  function Grouped<T>(p: T -> bool, source: seq<T>): seq<seq<T>> {
    var matches := MatchesOf(p, source);
    if |matches| == 0 then [] else GetGroups(ClosedPairs(matches, |source|), source)
  }

  /** `group_source_by`. */
  method GroupSourceBy<T>(p: T -> bool, source: seq<T>) returns (groups: seq<seq<T>>)
    ensures groups == Grouped(p, source)
    ensures |MatchesOf(p, source)| < 2 ==> groups == []
    ensures |MatchesOf(p, source)| >= 2 ==>
      && |groups| == |MatchesOf(p, source)|
      && Concat(groups) == source[MatchesOf(p, source)[0].0..]
  {
    var matches := PartitionBy(p, source);
    if |matches| == 0 {
      return [];
    }
    var weekdayIndexes := GetPairwiseSeriesIndexes(matches);
    if |weekdayIndexes| > 0 {
      weekdayIndexes := weekdayIndexes + [(weekdayIndexes[|weekdayIndexes| - 1].1, |source|)];
    }
    groups := GetGroups(weekdayIndexes, source);
    if |matches| >= 2 {
      GroupedConcat(p, source);
    }
  }

  // ---------------------------------------------------------------------------
  // What the groups are

  /** Where group `j` ends: the next match, or the end of the source after the last one. */
  function Bound<T>(m: seq<(nat, T)>, j: nat, n: nat): nat {
    if j < |m| then m[j].0 else n
  }

  /** With fewer than two matches there are no groups: a single match yields `[]`. */
  lemma GroupedFewMatches<T>(p: T -> bool, source: seq<T>)
    requires |MatchesOf(p, source)| < 2
    ensures Grouped(p, source) == []
  {
  }

  lemma ClosedPairsAt<T>(m: seq<(nat, T)>, n: nat, j: nat)
    requires |m| >= 2 && j < |m|
    ensures |ClosedPairs(m, n)| == |m|
    ensures ClosedPairs(m, n)[j] == (m[j].0, Bound(m, j + 1, n))
  {
  }

  /** A sequence none of whose items satisfies the predicate has no matches. */
  lemma {:induction false} NoMatches<T>(p: T -> bool, s: seq<T>)
    requires forall i :: 0 <= i < |s| ==> !p(s[i])
    ensures MatchesOf(p, s) == []
    decreases |s|
  {
    if |s| > 0 {
      NoMatches(p, s[..|s| - 1]);
    }
  }

  lemma FirstGroupNonEmpty<T>(p: T -> bool, s: seq<T>)
    ensures |Grouped(p, s)| > 0 ==> |Grouped(p, s)[0]| > 0
  {
    if |Grouped(p, s)| > 0 {
      if |MatchesOf(p, s)| < 2 { GroupedFewMatches(p, s); }
      GroupAt(p, s, 0);
    }
  }

  /** Group `j` runs from match `j` up to match `j+1`, or to the end of the source for the last match. */
  lemma GroupAt<T>(p: T -> bool, s: seq<T>, j: nat)
    requires |MatchesOf(p, s)| >= 2 && j < |MatchesOf(p, s)|
    ensures var m := MatchesOf(p, s);
      && |Grouped(p, s)| == |m|
      && m[j].0 < Bound(m, j + 1, |s|) <= |s|
      && Grouped(p, s)[j] == s[m[j].0..Bound(m, j + 1, |s|)]
  {
    var m := MatchesOf(p, s);
    var c := ClosedPairs(m, |s|);
    ClosedPairsAt(m, |s|, j);
    if j + 1 < |m| {
      assert m[j].0 < m[j + 1].0;
    }
    assert Grouped(p, s)[j] == Slice(s, c[j].0, c[j].1);
  }

  /** Group `g[k]` is the slice of `s` from match `k` up to the next match, or to the end after the last one. */
  ghost predicate GroupSpan<T>(s: seq<T>, m: seq<(nat, T)>, g: seq<seq<T>>, k: nat)
    requires k < |m| && |g| == |m|
  {
    m[k].0 < Bound(m, k + 1, |s|) <= |s| && g[k] == s[m[k].0..Bound(m, k + 1, |s|)]
  }

  /** With k >= 2 matches there are k groups, group j running from match j up to match j+1 (or the end). */
  lemma GroupedShape<T>(p: T -> bool, s: seq<T>)
    requires |MatchesOf(p, s)| >= 2
    ensures |Grouped(p, s)| == |MatchesOf(p, s)|
    ensures forall j :: 0 <= j < |MatchesOf(p, s)| ==> GroupSpan(s, MatchesOf(p, s), Grouped(p, s), j)
  {
    var m := MatchesOf(p, s);
    GroupAt(p, s, 0);
    forall j | 0 <= j < |m| ensures GroupSpan(s, m, Grouped(p, s), j) {
      GroupAt(p, s, j);
    }
  }

  /** No match position lies strictly inside the span of group `j`. */
  lemma NoMatchInside<T>(m: seq<(nat, T)>, n: nat, j: nat, i: nat)
    requires Ascending(m) && j < |m| && m[j].0 < i < Bound(m, j + 1, n)
    ensures forall k :: 0 <= k < |m| ==> m[k].0 != i
  {
    forall k | 0 <= k < |m| ensures m[k].0 != i {
      if k <= j {
        assert k == j || m[k].0 < m[j].0;
      } else {
        assert k == j + 1 || m[j + 1].0 < m[k].0;
      }
    }
  }

  /** Each group starts with a marker item and holds no other marker item. */
  lemma GroupsAreDelimited<T>(p: T -> bool, s: seq<T>, j: nat)
    requires |MatchesOf(p, s)| >= 2 && j < |Grouped(p, s)|
    ensures var g := Grouped(p, s)[j];
      && |g| > 0 && g[0] == s[MatchesOf(p, s)[j].0] && p(g[0])
      && forall t :: 0 < t < |g| ==> !p(g[t])
  {
    GroupAt(p, s, j);
    SpanHasOneMarker(p, s, j);
    var m := MatchesOf(p, s);
    var g := Grouped(p, s)[j];
    SliceDelimited(p, s, m[j].0, Bound(m, j + 1, |s|), g);
  }

  /** A slice that starts at a marker and has no marker after its head. */
  lemma SliceDelimited<T>(p: T -> bool, s: seq<T>, lo: nat, hi: nat, g: seq<T>)
    requires lo < hi <= |s| && g == s[lo..hi] && p(s[lo])
    requires forall i :: lo < i < hi && i < |s| ==> !p(s[i])
    ensures |g| > 0 && g[0] == s[lo] && p(g[0]) && forall t :: 0 < t < |g| ==> !p(g[t])
  {
    forall t | 0 < t < |g| ensures !p(g[t]) {
      assert g[t] == s[lo + t];
    }
  }

  /** Between match `j` and the next match (or the end) no item satisfies `p`. */
  lemma SpanHasOneMarker<T>(p: T -> bool, s: seq<T>, j: nat)
    requires j < |MatchesOf(p, s)|
    ensures forall i :: MatchesOf(p, s)[j].0 < i < Bound(MatchesOf(p, s), j + 1, |s|) && i < |s| ==> !p(s[i])
  {
    var m := MatchesOf(p, s);
    forall i | m[j].0 < i < Bound(m, j + 1, |s|) && i < |s| ensures !p(s[i]) {
      NoMatchInside(m, |s|, j, i);
      NotMatched(p, s, i);
    }
  }

  /** No item before the first marker satisfies the predicate: the dropped prefix holds no marker. */
  lemma DroppedPrefixHasNoMarker<T>(p: T -> bool, s: seq<T>, i: nat)
    requires |MatchesOf(p, s)| > 0 && i < MatchesOf(p, s)[0].0
    ensures !p(s[i])
  {
    var m := MatchesOf(p, s);
    assert forall k :: 0 <= k < |m| ==> m[k].0 != i by {
      forall k | 0 <= k < |m| ensures m[k].0 != i {
        assert k == 0 || m[0].0 < m[k].0;
      }
    }
    NotMatched(p, s, i);
  }

  function Concat<T>(groups: seq<seq<T>>): seq<T> {
    if |groups| == 0 then [] else groups[0] + Concat(groups[1..])
  }

  /** Concatenating the groups gives the source from the first marker on. */
  lemma GroupedConcat<T>(p: T -> bool, s: seq<T>)
    requires |MatchesOf(p, s)| >= 2
    ensures Concat(Grouped(p, s)) == s[MatchesOf(p, s)[0].0..]
  {
    GroupedShape(p, s);
    ConcatGroups(s, MatchesOf(p, s), Grouped(p, s), 0);
  }

  /** Groups cut at consecutive matches concatenate back to the source from the first cut on. */
  lemma {:induction false} ConcatGroups<T>(s: seq<T>, m: seq<(nat, T)>, g: seq<seq<T>>, j: nat)
    requires |g| == |m| && j <= |m|
    requires forall k :: 0 <= k < |m| ==> GroupSpan(s, m, g, k)
    ensures Bound(m, j, |s|) <= |s| && Concat(g[j..]) == s[Bound(m, j, |s|)..]
    decreases |m| - j
  {
    if j < |m| {
      assert GroupSpan(s, m, g, j);
      ConcatGroups(s, m, g, j + 1);
      assert g[j..][1..] == g[j + 1..];
      var lo, hi := m[j].0, Bound(m, j + 1, |s|);
      assert s[lo..] == s[lo..hi] + s[hi..];
    } else {
      assert g[j..] == [];
    }
  }
}
