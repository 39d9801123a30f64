/** Small building blocks shared by every part of the dashboard model:
    an Option type for JavaScript's "missing" values, Math.round, and an
    in-place sort standing for Array.prototype.sort with a comparator. */
module Common {

  /** A value that JavaScript may leave `undefined` or `null`. */
  datatype Option<+T> = None | Some(value: T)

  function Min(a: int, b: int): int { if a <= b then a else b }

  function Max(a: int, b: int): int { if a >= b then a else b }

  /** JavaScript's Math.round on an exact real: the nearest integer, a half
      rounded towards +infinity. */
  function Round(x: real): (r: int)
    ensures x - 0.5 < r as real <= x + 0.5
  {
    (x + 0.5).Floor
  }

  /** No element occurs twice. */
  predicate Distinct<T(==)>(s: seq<T>) {
    forall i, j :: 0 <= i < j < |s| ==> s[i] != s[j]
  }

  function Elements<T>(s: seq<T>): set<T> { set x | x in s }

  /** The elements of `s` that satisfy `p`, in order (`s.filter(p)`). */
  function Kept<T(!new)>(s: seq<T>, p: T -> bool): (r: seq<T>)
    ensures |r| <= |s|
    ensures forall x :: x in r <==> x in s && p(x)
    ensures r == [] <==> forall i :: 0 <= i < |s| ==> !p(s[i])
  {
    if s == [] then [] else Kept(s[..|s| - 1], p) + (if p(s[|s| - 1]) then [s[|s| - 1]] else [])
  }

  lemma {:induction false} KeptWhole<T(!new)>(s: seq<T>, p: T -> bool)
    ensures Kept(s[..|s|], p) == Kept(s, p)
  {
    assert s[..|s|] == s;
  }

  lemma KeptSnoc<T(!new)>(s: seq<T>, x: T, p: T -> bool)
    ensures Kept(s + [x], p) == Kept(s, p) + (if p(x) then [x] else [])
  {
    assert (s + [x])[..|s|] == s;
  }

  /** `order` lists keys in the order they are first met in `xs`: before an
      element with a later-listed key, an element with each earlier-listed
      key has occurred. */
  ghost predicate FirstMetOrder<T, K>(xs: seq<T>, key: T -> K, order: seq<K>) {
    forall i, j, q :: 0 <= i < j < |order| && 0 <= q < |xs| && key(xs[q]) == order[j]
      ==> exists p :: 0 <= p < q && key(xs[p]) == order[i]
  }

  /** Every key of `order` is one of `xs`, and the other way round. */
  ghost predicate KeysOf<T, K(!new)>(xs: seq<T>, key: T -> K, order: seq<K>) {
    forall k :: k in order <==> exists q :: 0 <= q < |xs| && key(xs[q]) == k
  }

  /** A single element lists its own key. */
  lemma FirstMetOne<T, K(!new)>(x: T, key: T -> K)
    ensures FirstMetOrder([x], key, [key(x)]) && KeysOf([x], key, [key(x)])
  {
    forall k ensures k in [key(x)] <==> exists q :: 0 <= q < |[x]| && key([x][q]) == k {
      if k == key(x) {
        assert key([x][0]) == k;
      }
    }
  }

  /** Listing the key of a new element after the others, and listing
      nothing for a known one, keeps the first-met order. */
  lemma FirstMetSnoc<T, K(!new)>(xs: seq<T>, key: T -> K, order: seq<K>, x: T)
    requires FirstMetOrder(xs, key, order) && KeysOf(xs, key, order)
    ensures var order' := if key(x) in order then order else order + [key(x)];
            FirstMetOrder(xs + [x], key, order') && KeysOf(xs + [x], key, order')
  {
    var ys := xs + [x];
    var order' := if key(x) in order then order else order + [key(x)];
    assert forall q :: 0 <= q < |xs| ==> ys[q] == xs[q];
    forall i, j, q | 0 <= i < j < |order'| && 0 <= q < |ys| && key(ys[q]) == order'[j]
      ensures exists p :: 0 <= p < q && key(ys[p]) == order'[i]
    {
      assert order'[i] == order[i];
      if j < |order| {
        assert order'[j] == order[j];
        var q' := q;
        if q == |xs| {
          assert order[j] in order;
          q' :| 0 <= q' < |xs| && key(xs[q']) == order[j];
        }
        var p :| 0 <= p < q' && key(xs[p]) == order[i];
        assert ys[p] == xs[p];
      } else {
        assert key(x) !in order;
        assert q == |xs|;
        assert order[i] in order;
        var p :| 0 <= p < |xs| && key(xs[p]) == order[i];
        assert ys[p] == xs[p];
      }
    }
    forall k ensures k in order' <==> exists q :: 0 <= q < |ys| && key(ys[q]) == k {
      if exists q :: 0 <= q < |ys| && key(ys[q]) == k {
        var q :| 0 <= q < |ys| && key(ys[q]) == k;
        if q < |xs| {
          assert key(xs[q]) == k;
        }
      }
      if k in order {
        var q :| 0 <= q < |xs| && key(xs[q]) == k;
        assert key(ys[q]) == k;
      }
      if k == key(x) {
        assert key(ys[|xs|]) == k;
      }
    }
  }

  /** A sequence without repetitions has as many elements as its set. */
  lemma {:induction false} DistinctCard<T>(s: seq<T>)
    requires Distinct(s)
    ensures |Elements(s)| == |s|
  {
    if s != [] {
      var t := s[..|s| - 1];
      assert Distinct(t);
      DistinctCard(t);
      assert s == t + [s[|s| - 1]];
      assert s[|s| - 1] !in t;
      assert Elements(s) == Elements(t) + {s[|s| - 1]};
    }
  }

  /** `f` applied to every element, in order. */
  function Map<T, U>(f: T -> U, s: seq<T>): (r: seq<U>)
    ensures |r| == |s|
    ensures forall i :: 0 <= i < |s| ==> r[i] == f(s[i])
  {
    seq(|s|, i requires 0 <= i < |s| => f(s[i]))
  }

  lemma MapSnoc<T, U>(f: T -> U, s: seq<T>, x: T)
    ensures Map(f, s + [x]) == Map(f, s) + [f(x)]
  {
    assert (s + [x])[..|s|] == s;
  }

  /** The strings of `xs` separated by `sep` (`Array.prototype.join`). */
  function Join(xs: seq<string>, sep: string): string {
    if |xs| == 0 then ""
    else if |xs| == 1 then xs[0]
    else Join(xs[..|xs| - 1], sep) + sep + xs[|xs| - 1]
  }

  /** A sequence has no repetitions exactly when no element occurs twice in its multiset. */
  lemma {:induction false} DistinctMultiset<T>(s: seq<T>)
    ensures Distinct(s) <==> forall x :: multiset(s)[x] <= 1
  {
    if s != [] {
      var p := s[..|s| - 1];
      var x := s[|s| - 1];
      assert s == p + [x];
      assert multiset(s) == multiset(p) + multiset{x};
      DistinctMultiset(p);
      if Distinct(s) {
        assert Distinct(p);
        assert x !in p;
      } else {
        var i, j :| 0 <= i < j < |s| && s[i] == s[j];
        if j < |p| {
          assert p[i] == p[j];
          assert !Distinct(p);
          var y :| multiset(p)[y] > 1;
          assert multiset(s)[y] > 1;
        } else {
          assert s[i] in p;
          assert multiset(s)[x] == multiset(p)[x] + 1;
        }
      }
    }
  }

  /** Reordering keeps a sequence free of repetitions. */
  lemma PermutationDistinct<T>(s: seq<T>, t: seq<T>)
    requires multiset(s) == multiset(t)
    requires Distinct(t)
    ensures Distinct(s)
  {
    DistinctMultiset(t);
    DistinctMultiset(s);
  }

  /** Reordering keeps the keys of a sequence free of repetitions. */
  lemma PermutedKeysDistinct<T, K>(s: seq<T>, t: seq<T>, key: T -> K)
    requires multiset(s) == multiset(t)
    requires Distinct(Map(key, t))
    ensures Distinct(Map(key, s))
  {
    assert Distinct(t) by {
      forall i, j | 0 <= i < j < |t| ensures t[i] != t[j] {
        assert Map(key, t)[i] != Map(key, t)[j];
      }
    }
    PermutationDistinct(s, t);
    forall i, j | 0 <= i < j < |s| ensures Map(key, s)[i] != Map(key, s)[j] {
      assert s[i] in multiset(t) && s[j] in multiset(t);
      var p :| 0 <= p < |t| && t[p] == s[i];
      var q :| 0 <= q < |t| && t[q] == s[j];
      assert p != q;
      if p < q {
        assert Map(key, t)[p] != Map(key, t)[q];
      } else {
        assert Map(key, t)[q] != Map(key, t)[p];
      }
    }
  }

  /** Taking the element at `j` out of a sequence takes it out of its multiset. */
  lemma MultisetRemove<T>(s: seq<T>, j: int)
    requires 0 <= j < |s|
    ensures multiset(s[..j] + s[j + 1..]) == multiset(s) - multiset{s[j]}
  {
    assert s == s[..j] + [s[j]] + s[j + 1..];
    assert multiset(s) == multiset(s[..j]) + multiset{s[j]} + multiset(s[j + 1..]);
  }

  /** Applying `f` commutes with taking out one element. */
  lemma MapRemove<T, U>(f: T -> U, t: seq<T>, j: int)
    requires 0 <= j < |t|
    ensures Map(f, t[..j] + t[j + 1..]) == Map(f, t)[..j] + Map(f, t)[j + 1..]
  {
  }

  /** Reordering a sequence reorders its image. */
  lemma {:induction false} MapMultiset<T, U>(f: T -> U, s: seq<T>, t: seq<T>)
    requires multiset(s) == multiset(t)
    ensures multiset(Map(f, s)) == multiset(Map(f, t))
  {
    if s == [] {
      assert |t| == |multiset(t)| == 0;
    } else {
      var x := s[|s| - 1];
      var s' := s[..|s| - 1];
      assert s == s' + [x];
      assert multiset(s') == multiset(s) - multiset{x};
      assert x in multiset(t);
      var j :| 0 <= j < |t| && t[j] == x;
      var t' := t[..j] + t[j + 1..];
      MultisetRemove(t, j);
      MapMultiset(f, s', t');
      var ft := Map(f, t);
      MapRemove(f, t, j);
      MultisetRemove(ft, j);
      assert ft[j] == f(x);
      assert multiset(Map(f, t')) == multiset(ft) - multiset{f(x)};
      assert f(x) in multiset(ft);
      assert multiset(ft) == multiset(Map(f, t')) + multiset{f(x)};
      MapSnoc(f, s', x);
      assert Map(f, s) == Map(f, s') + [f(x)];
      assert multiset(Map(f, s)) == multiset(Map(f, s')) + multiset{f(x)};
    }
  }

  /** How many elements of `s` satisfy `p` (`s.filter(p).length`). */
  function Count<T>(s: seq<T>, p: T -> bool): (r: nat)
    ensures r <= |s|
    ensures r == 0 <==> forall i :: 0 <= i < |s| ==> !p(s[i])
  {
    if s == [] then 0 else Count(s[..|s| - 1], p) + (if p(s[|s| - 1]) then 1 else 0)
  }

  lemma {:induction false} CountAppend<T>(a: seq<T>, b: seq<T>, p: T -> bool)
    ensures Count(a + b, p) == Count(a, p) + Count(b, p)
  {
    if b == [] {
      assert a + b == a;
    } else {
      var b' := b[..|b| - 1];
      assert (a + b)[..|a + b| - 1] == a + b';
      CountAppend(a, b', p);
    }
  }

  /** The count does not depend on the order. */
  lemma {:induction false} CountPermutation<T>(a: seq<T>, b: seq<T>, p: T -> bool)
    requires multiset(a) == multiset(b)
    ensures Count(a, p) == Count(b, p)
  {
    if a == [] {
      assert |b| == |multiset(b)| == 0;
    } else {
      var x := a[|a| - 1];
      var a' := a[..|a| - 1];
      assert multiset(a') == multiset(a) - multiset{x} by {
        assert a == a' + [x];
      }
      assert x in multiset(b);
      var j :| 0 <= j < |b| && b[j] == x;
      MultisetRemove(b, j);
      CountPermutation(a', b[..j] + b[j + 1..], p);
      CountRemove(b, j, p);
    }
  }

  lemma CountRemove<T>(b: seq<T>, j: int, p: T -> bool)
    requires 0 <= j < |b|
    ensures Count(b, p) == Count(b[..j] + b[j + 1..], p) + (if p(b[j]) then 1 else 0)
  {
    var q, x, r := b[..j], b[j], b[j + 1..];
    var qx := b[..j + 1];
    assert qx == q + [x];
    assert b == qx + r;
    CountAppend(qx, r, p);
    CountSnoc(q, x, p);
    CountAppend(q, r, p);
  }

  lemma CountSnoc<T>(q: seq<T>, x: T, p: T -> bool)
    ensures Count(q + [x], p) == Count(q, p) + (if p(x) then 1 else 0)
  {
    assert (q + [x])[..|q|] == q;
  }

  /** A permutation has the length of the original. */
  lemma PermutationLength<T>(s: seq<T>, t: seq<T>)
    requires multiset(s) == multiset(t)
    ensures |s| == |t|
  {
    assert |multiset(s)| == |s| && |multiset(t)| == |t|;
  }

  /** Reordering keeps the set of keys. */
  lemma PermutedKeys<T, K>(s: seq<T>, t: seq<T>, key: T -> K)
    requires multiset(s) == multiset(t)
    ensures Elements(Map(key, s)) == Elements(Map(key, t))
  {
    forall k | k in Elements(Map(key, s)) ensures k in Elements(Map(key, t)) {
      var i :| 0 <= i < |s| && Map(key, s)[i] == k;
      assert s[i] in multiset(t);
      var j :| 0 <= j < |t| && t[j] == s[i];
      assert Map(key, t)[j] == k;
    }
    forall k | k in Elements(Map(key, t)) ensures k in Elements(Map(key, s)) {
      var j :| 0 <= j < |t| && Map(key, t)[j] == k;
      assert t[j] in multiset(s);
      var i :| 0 <= i < |s| && s[i] == t[j];
      assert Map(key, s)[i] == k;
    }
  }

  /** `le` is a total preorder: every two values are comparable, and the
      comparison is transitive. This is what a sort comparator must be for
      the sorted result to be well defined. */
  ghost predicate TotalPreorder<T(!new)>(le: (T, T) -> bool) {
    && (forall x, y :: le(x, y) || le(y, x))
    && (forall x, y, z :: le(x, y) && le(y, z) ==> le(x, z))
  }

  /** Every element is `le` every later element. */
  ghost predicate SortedBy<T>(s: seq<T>, le: (T, T) -> bool) {
    forall i, j :: 0 <= i < j < |s| ==> le(s[i], s[j])
  }

  /** `r` lists `s[pos[0]], s[pos[1]], ...`: it takes every position of `s`
      exactly once. */
  ghost predicate Reindexes<T>(r: seq<T>, s: seq<T>, pos: seq<int>) {
    && |pos| == |r| == |s|
    && Distinct(pos)
    && forall k :: 0 <= k < |pos| ==> 0 <= pos[k] < |s| && r[k] == s[pos[k]]
  }

  /** Two elements that `le` ties keep the order they had in the input. */
  ghost predicate TiesInOrder<T>(r: seq<T>, pos: seq<int>, le: (T, T) -> bool)
    requires |pos| == |r|
  {
    forall p, q :: 0 <= p < q < |r| && le(r[q], r[p]) ==> pos[p] < pos[q]
  }

  /** `r` is `s` sorted stably by `le` (what `Array.prototype.sort`
      promises): ordered, a rearrangement of `s`, and ties in the order of `s`. */
  ghost predicate StablySorted<T>(r: seq<T>, s: seq<T>, le: (T, T) -> bool) {
    && SortedBy(r, le)
    && exists pos :: Reindexes(r, s, pos) && TiesInOrder(r, pos, le)
  }

  /** The insertion sort before it inserts `t[i]`: the first `i` elements
      are sorted stably, the others have not moved. */
  ghost predicate SortedPrefix<T>(t: seq<T>, s: seq<T>, pos: seq<int>, i: int, le: (T, T) -> bool) {
    && 1 <= i <= |t|
    && Reindexes(t, s, pos)
    && (forall p, q :: 0 <= p < q < i ==> le(t[p], t[q]))
    && (forall k :: 0 <= k < i ==> pos[k] < i)
    && (forall k :: i <= k < |t| ==> pos[k] == k)
    && (forall p, q :: 0 <= p < q < i && le(t[q], t[p]) ==> pos[p] < pos[q])
  }

  /** The insertion sort while `s[i]` moves down: it sits at `j`, the
      elements after it up to `i` are strictly larger, and the others of
      the first `i + 1` are sorted stably. */
  ghost predicate Inserting<T>(t: seq<T>, s: seq<T>, pos: seq<int>, i: int, j: int, le: (T, T) -> bool) {
    && 0 <= j <= i < |t|
    && Reindexes(t, s, pos)
    && (forall p, q :: 0 <= p < q <= i && p != j && q != j ==> le(t[p], t[q]))
    && (forall q :: j < q <= i ==> le(t[j], t[q]) && !le(t[q], t[j]))
    && pos[j] == i
    && (forall k :: 0 <= k <= i && k != j ==> pos[k] < i)
    && (forall k :: i < k < |t| ==> pos[k] == k)
    && (forall p, q :: 0 <= p < q <= i && p != j && q != j && le(t[q], t[p]) ==> pos[p] < pos[q])
  }

  lemma InsertStart<T>(t: seq<T>, s: seq<T>, pos: seq<int>, i: int, le: (T, T) -> bool)
    requires SortedPrefix(t, s, pos, i, le) && i < |t|
    ensures Inserting(t, s, pos, i, i, le)
  {
  }

  /** Swapping `t[j - 1]`, strictly larger, with the element being inserted. */
  lemma InsertSwap<T(!new)>(t: seq<T>, s: seq<T>, pos: seq<int>, i: int, j: int, le: (T, T) -> bool)
    requires TotalPreorder(le)
    requires Inserting(t, s, pos, i, j, le) && 0 < j && !le(t[j - 1], t[j])
    ensures Inserting(t[j - 1 := t[j]][j := t[j - 1]], s, pos[j - 1 := pos[j]][j := pos[j - 1]], i, j - 1, le)
  {
  }

  /** Once the element being inserted stops, the first `i + 1` are sorted stably. */
  lemma InsertDone<T(!new)>(t: seq<T>, s: seq<T>, pos: seq<int>, i: int, j: int, le: (T, T) -> bool)
    requires TotalPreorder(le)
    requires Inserting(t, s, pos, i, j, le) && (j == 0 || le(t[j - 1], t[j]))
    ensures SortedPrefix(t, s, pos, i + 1, le)
  {
  }

  /** Before the first insertion, the first element alone is sorted and
      nothing has moved. */
  lemma SortStart<T>(s: seq<T>, le: (T, T) -> bool)
    requires |s| > 0
    ensures SortedPrefix(s, s, seq(|s|, k => k), 1, le)
  {
  }

  /** After the last insertion the whole array is sorted stably. */
  lemma SortDone<T>(t: seq<T>, s: seq<T>, pos: seq<int>, le: (T, T) -> bool)
    requires SortedPrefix(t, s, pos, |t|, le)
    ensures SortedBy(t, le) && Reindexes(t, s, pos) && TiesInOrder(t, pos, le)
  {
  }

  /** Sorts `a` in place by `le` (insertion sort by adjacent swaps); the
      result is ordered, a permutation of the input, and the sort is
      stable: `pos` says where each element came from, and elements that
      `le` ties keep their input order. */
  method InsertionSort<T(!new)>(a: array<T>, le: (T, T) -> bool) returns (ghost pos: seq<int>)
    requires TotalPreorder(le)
    modifies a
    ensures SortedBy(a[..], le)
    ensures multiset(a[..]) == multiset(old(a[..]))
    ensures Reindexes(a[..], old(a[..]), pos) && TiesInOrder(a[..], pos, le)
  {
    ghost var s := a[..];
    pos := seq(a.Length, k => k);
    if a.Length == 0 {
      return;
    }
    SortStart(s, le);
    var i := 1;
    while i < a.Length
      invariant SortedPrefix(a[..], s, pos, i, le)
      invariant multiset(a[..]) == multiset(s)
    {
      pos := InsertAt(a, i, le, s, pos);
      i := i + 1;
    }
    SortDone(a[..], s, pos, le);
  }

  /** One pass of the insertion sort: moves `a[i]` down past the strictly
      larger elements before it. */
  method InsertAt<T(!new)>(a: array<T>, i: int, le: (T, T) -> bool, ghost s: seq<T>, ghost pos: seq<int>)
    returns (ghost pos': seq<int>)
    requires TotalPreorder(le)
    requires SortedPrefix(a[..], s, pos, i, le) && i < a.Length
    modifies a
    ensures SortedPrefix(a[..], s, pos', i + 1, le)
    ensures multiset(a[..]) == multiset(old(a[..]))
  {
    pos' := pos;
    InsertStart(a[..], s, pos', i, le);
    var j := i;
    while j > 0 && !le(a[j - 1], a[j])
      invariant Inserting(a[..], s, pos', i, j, le)
      invariant multiset(a[..]) == multiset(old(a[..]))
    {
      ghost var t := a[..];
      InsertSwap(t, s, pos', i, j, le);
      a[j - 1], a[j] := a[j], a[j - 1];
      assert a[..] == t[j - 1 := t[j]][j := t[j - 1]];
      SwapMultiset(t, j);
      pos' := pos'[j - 1 := pos'[j]][j := pos'[j - 1]];
      j := j - 1;
    }
    InsertDone(a[..], s, pos', i, j, le);
  }

  /** Swapping two neighbours keeps the multiset. */
  lemma SwapMultiset<T>(t: seq<T>, j: int)
    requires 0 < j < |t|
    ensures multiset(t[j - 1 := t[j]][j := t[j - 1]]) == multiset(t)
  {
  }

  /** Sorts a copy of `s` stably by `le`. */
  method SortSeq<T(!new)>(s: seq<T>, le: (T, T) -> bool) returns (r: seq<T>)
    requires TotalPreorder(le)
    ensures StablySorted(r, s, le)
    ensures multiset(r) == multiset(s)
  {
    var a := new T[|s|](i requires 0 <= i < |s| => s[i]);
    assert a[..] == s;
    ghost var pos := InsertionSort(a, le);
    r := a[..];
  }
}
