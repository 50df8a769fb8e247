/** Sequence operations that stand in for the query and array methods the
    routes use: `filter`, a descending sort on a numeric key (Mongo's
    `.sort({ field: -1 })` and `Array.prototype.sort((a, b) => key(b) - key(a))`),
    and `skip`/`limit`/`slice`. */
module Ordering {
  import opened Common

  /** Keeps the elements satisfying p, in their original order. */
  function Filter<T>(s: seq<T>, p: T -> bool): (r: seq<T>)
    ensures |r| <= |s|
    ensures forall i :: 0 <= i < |r| ==> p(r[i])
    ensures multiset(r) <= multiset(s)
  {
    if s == [] then []
    else
      assert s == [s[0]] + s[1..];
      if p(s[0]) then [s[0]] + Filter(s[1..], p) else Filter(s[1..], p)
  }

  /** An element that satisfies p survives the filter. */
  lemma {:induction false} FilterKeeps<T>(s: seq<T>, p: T -> bool, i: nat)
    requires i < |s| && p(s[i])
    ensures exists j :: 0 <= j < |Filter(s, p)| && Filter(s, p)[j] == s[i]
  {
    if i == 0 {
      assert Filter(s, p)[0] == s[0];
    } else {
      FilterKeeps(s[1..], p, i - 1);
      var j :| 0 <= j < |Filter(s[1..], p)| && Filter(s[1..], p)[j] == s[1..][i - 1];
      if p(s[0]) {
        assert Filter(s, p)[j + 1] == s[i];
      } else {
        assert Filter(s, p)[j] == s[i];
      }
    }
  }

  /** Appending one element appends it to the filtered sequence when it
      satisfies p, and leaves the filtered sequence alone otherwise. */
  lemma {:induction false} FilterAppend<T>(s: seq<T>, x: T, p: T -> bool)
    ensures Filter(s + [x], p) == if p(x) then Filter(s, p) + [x] else Filter(s, p)
  {
    if s == [] {
      assert [] + [x] == [x];
      assert [x][1..] == [];
    } else {
      assert (s + [x])[1..] == s[1..] + [x];
      FilterAppend(s[1..], x, p);
    }
  }

  /** Filtering by p and by its negation splits a sequence in two. */
  lemma {:induction false} FilterSplit<T>(s: seq<T>, p: T -> bool)
    ensures |Filter(s, p)| + |Filter(s, x => !p(x))| == |s|
  {
    if s != [] {
      FilterSplit(s[1..], p);
    }
  }

  /** When r holds exactly where one of two exclusive predicates p and q
      does, r's count is the sum of theirs. */
  lemma {:induction false} FilterCountDisjoint<T>(s: seq<T>, r: T -> bool, p: T -> bool, q: T -> bool)
    requires forall x :: r(x) == (p(x) || q(x))
    requires forall x :: !(p(x) && q(x))
    ensures |Filter(s, r)| == |Filter(s, p)| + |Filter(s, q)|
  {
    if s != [] {
      FilterCountDisjoint(s[1..], r, p, q);
    }
  }

  /** Nothing survives a filter that no element satisfies. */
  lemma {:induction false} FilterNone<T>(s: seq<T>, p: T -> bool)
    requires forall i :: 0 <= i < |s| ==> !p(s[i])
    ensures Filter(s, p) == []
  {
    if s != [] {
      FilterNone(s[1..], p);
    }
  }

  /** Filtering twice is filtering by the conjunction. */
  lemma {:induction false} FilterFilter<T>(s: seq<T>, p: T -> bool, q: T -> bool)
    ensures Filter(Filter(s, p), q) == Filter(s, x => p(x) && q(x))
  {
    if s != [] {
      FilterFilter(s[1..], p, q);
    }
  }

  /** Filtering a concatenation concatenates the filtered parts, so the
      kept elements stay in their original order. */
  lemma {:induction false} FilterConcat<T>(a: seq<T>, b: seq<T>, p: T -> bool)
    ensures Filter(a + b, p) == Filter(a, p) + Filter(b, p)
  {
    if a == [] {
      assert a + b == b;
    } else {
      assert (a + b)[0] == a[0];
      assert (a + b)[1..] == a[1..] + b;
      FilterConcat(a[1..], b, p);
    }
  }

  /** A predicate that holds wherever p holds keeps at least as many
      elements as p. */
  lemma {:induction false} FilterMonotone<T>(s: seq<T>, p: T -> bool, q: T -> bool)
    requires forall i :: 0 <= i < |s| && p(s[i]) ==> q(s[i])
    ensures |Filter(s, p)| <= |Filter(s, q)|
  {
    if s != [] {
      assert forall i :: 0 <= i < |s[1..]| ==> s[1..][i] == s[i + 1];
      FilterMonotone(s[1..], p, q);
    }
  }

  predicate SortedDesc<T>(s: seq<T>, key: T -> int)
  {
    forall i, j :: 0 <= i < j < |s| ==> key(s[i]) >= key(s[j])
  }

  /** Inserts x before the first element whose key is not above key(x)'s,
      so that equal keys keep their order. */
  function Insert<T>(x: T, s: seq<T>, key: T -> int): (r: seq<T>)
    requires SortedDesc(s, key)
    ensures |r| == |s| + 1
    ensures SortedDesc(r, key)
    ensures multiset(r) == multiset(s) + multiset{x}
  {
    if s == [] || key(x) >= key(s[0]) then [x] + s
    else
      var tail := Insert(x, s[1..], key);
      HeadBoundsInsertion(s, x, tail, key);
      ConsSorted(s[0], tail, key);
      assert s == [s[0]] + s[1..];
      assert multiset([s[0]] + tail) == multiset{s[0]} + multiset(tail);
      [s[0]] + tail
  }

  /** A head that bounds every element of a sorted tail keeps it sorted. */
  lemma ConsSorted<T>(h: T, tail: seq<T>, key: T -> int)
    requires SortedDesc(tail, key)
    requires forall k :: 0 <= k < |tail| ==> key(h) >= key(tail[k])
    ensures SortedDesc([h] + tail, key)
  {
    forall i, j | 0 <= i < j < |[h] + tail| ensures key(([h] + tail)[i]) >= key(([h] + tail)[j]) {
      assert ([h] + tail)[j] == tail[j - 1];
      if i > 0 {
        assert ([h] + tail)[i] == tail[i - 1];
      }
    }
  }

  /** The head of a sorted sequence bounds whatever the insertion of a
      smaller element into its tail yields. */
  lemma HeadBoundsInsertion<T>(s: seq<T>, x: T, tail: seq<T>, key: T -> int)
    requires SortedDesc(s, key) && s != [] && key(x) < key(s[0])
    requires multiset(tail) == multiset(s[1..]) + multiset{x}
    ensures forall k :: 0 <= k < |tail| ==> key(s[0]) >= key(tail[k])
  {
    forall k | 0 <= k < |tail| ensures key(s[0]) >= key(tail[k]) {
      assert tail[k] in multiset(tail);
      if tail[k] != x {
        assert tail[k] in multiset(s[1..]);
        var m :| 0 <= m < |s[1..]| && s[1..][m] == tail[k];
        assert s[1..][m] == s[m + 1];
      }
    }
  }

  /** Stable insertion sort, largest key first. */
  function SortDesc<T>(s: seq<T>, key: T -> int): (r: seq<T>)
    ensures |r| == |s|
    ensures SortedDesc(r, key)
    ensures multiset(r) == multiset(s)
  {
    if s == [] then []
    else
      assert s == [s[0]] + s[1..];
      Insert(s[0], SortDesc(s[1..], key), key)
  }

  /** The first n elements, or all of them when there are fewer. */
  function Take<T>(s: seq<T>, n: nat): (r: seq<T>)
    ensures |r| == if n < |s| then n else |s|
    ensures r == s[..|r|]
  {
    if n < |s| then s[..n] else s
  }

  /** Everything after the first n elements. */
  function Drop<T>(s: seq<T>, n: nat): (r: seq<T>)
    ensures |r| == if n < |s| then |s| - n else 0
    ensures r == s[|s| - |r|..]
  {
    if n < |s| then s[n..] else []
  }

  /** `.skip(skip).limit(n)`: the elements from position skip on, at most
      limit.value of them when a limit is given. */
  function Window<T>(s: seq<T>, skip: nat, limit: Option<nat>): (r: seq<T>)
    ensures |r| <= |s| && (limit.Some? ==> |r| <= limit.value)
    ensures forall i :: 0 <= i < |r| ==> skip + i < |s| && r[i] == s[skip + i]
    ensures skip < |s| && (limit.None? || limit.value > 0) ==> r != []
    ensures skip >= |s| ==> r == []
  {
    var rest := Drop(s, skip);
    if limit.None? then rest else Take(rest, limit.value)
  }

  /** A window holds every element from `skip` on, up to its limit. */
  lemma WindowHolds<T>(s: seq<T>, skip: nat, limit: nat, off: nat, idx: nat)
    requires off < limit && idx == skip + off && idx < |s|
    ensures off < |Window(s, skip, Some(limit))| && Window(s, skip, Some(limit))[off] == s[idx]
  {
  }

  /** A window of a sorted sequence is sorted. */
  lemma WindowSorted<T>(s: seq<T>, skip: nat, limit: Option<nat>, key: T -> int)
    requires SortedDesc(s, key)
    ensures SortedDesc(Window(s, skip, limit), key)
  {
    var r := Window(s, skip, limit);
    forall i, j | 0 <= i < j < |r| ensures key(r[i]) >= key(r[j]) {
      assert r[i] == s[skip + i] && r[j] == s[skip + j];
    }
  }

  /** Taking a prefix of a sorted sequence keeps the largest keys: every
      element left out has a key no greater than any element kept. */
  lemma TakeKeepsLargest<T>(s: seq<T>, n: nat, key: T -> int)
    requires SortedDesc(s, key)
    ensures SortedDesc(Take(s, n), key)
    ensures forall i, j :: 0 <= i < |Take(s, n)| <= j < |s| ==> key(s[j]) <= key(Take(s, n)[i])
  {
  }
}
