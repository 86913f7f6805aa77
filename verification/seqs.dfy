/** The array pipeline operations the platform's code is written with:
  * `map`, `filter`, `some`, `filter(...).length` and `slice`, on sequences. */
module Seqs {
  import opened Wrappers

  /** `s.map(f)`. */
  function Map<A, B>(f: A -> B, s: seq<A>): (r: seq<B>)
    ensures |r| == |s|
    ensures forall i :: 0 <= i < |s| ==> r[i] == f(s[i])
  {
    if |s| == 0 then [] else [f(s[0])] + Map(f, s[1..])
  }

  /** `s.filter(p)`. */
  function Filter<T>(p: T -> bool, s: seq<T>): (r: seq<T>)
    ensures |r| <= |s|
    ensures forall x :: x in r ==> x in s && p(x)
    ensures forall i :: 0 <= i < |s| && p(s[i]) ==> s[i] in r
  {
    if |s| == 0 then [] else (if p(s[0]) then [s[0]] else []) + Filter(p, s[1..])
  }

  /** Overwriting an element with one the filter drops is the same, after
    * filtering, as removing it. */
  lemma FilterOverwriteDropped<T>(p: T -> bool, s: seq<T>, k: nat, x: T)
    requires k < |s| && !p(x)
    ensures Filter(p, s[k := x]) == Filter(p, s[..k] + s[k + 1..])
  {
    var a, b := s[..k], s[k + 1..];
    assert s[k := x] == (a + [x]) + b;
    assert Filter(p, [x]) == [] by {
      assert [x][1..] == [];
    }
    FilterAppend(p, a, [x]);
    assert Filter(p, a + [x]) == Filter(p, a);
    FilterAppend(p, a + [x], b);
    FilterAppend(p, a, b);
  }

  /** `r` is `s` with some elements left out, the others in their order. */
  predicate IsSubsequence<T(==)>(r: seq<T>, s: seq<T>)
    decreases |s|
  {
    if |r| == 0 then true
    else if |s| == 0 then false
    else if r[0] == s[0] then IsSubsequence(r[1..], s[1..])
    else IsSubsequence(r, s[1..])
  }

  lemma {:induction false} EmptySubsequence<T>(s: seq<T>)
    ensures IsSubsequence([], s)
  {
  }

  /** Filtering keeps the surviving elements in their original order. */
  lemma {:induction false} FilterIsSubsequence<T>(p: T -> bool, s: seq<T>)
    ensures IsSubsequence(Filter(p, s), s)
    decreases |s|
  {
    if |s| > 0 {
      FilterIsSubsequence(p, s[1..]);
      var rest := Filter(p, s[1..]);
      if p(s[0]) {
        assert Filter(p, s) == [s[0]] + rest;
        assert (Filter(p, s))[1..] == rest;
      } else {
        assert Filter(p, s) == rest;
        if |rest| > 0 {
          SkipHead(rest, s);
        }
      }
    }
  }

  /** A subsequence of the tail is a subsequence of the whole. */
  lemma {:induction false} SkipHead<T>(r: seq<T>, s: seq<T>)
    requires |s| > 0 && IsSubsequence(r, s[1..])
    ensures IsSubsequence(r, s)
    decreases |s|, 1
  {
    if |r| > 0 && r[0] == s[0] {
      SubsequenceOfTail(r, s[1..]);
    }
  }

  /** Dropping the head of a subsequence keeps it a subsequence. */
  lemma {:induction false} SubsequenceOfTail<T>(r: seq<T>, s: seq<T>)
    requires |r| > 0 && IsSubsequence(r, s)
    ensures IsSubsequence(r[1..], s)
    decreases |s|, 2
  {
    if r[0] == s[0] {
      SkipHead(r[1..], s);
    } else {
      SubsequenceOfTail(r, s[1..]);
      SkipHead(r[1..], s);
    }
  }

  /** Filtering distributes over concatenation: pieces are filtered
    * independently and stay in order. */
  lemma {:induction false} FilterAppend<T>(p: T -> bool, a: seq<T>, b: seq<T>)
    ensures Filter(p, a + b) == Filter(p, a) + Filter(p, b)
    decreases |a|
  {
    if |a| > 0 {
      assert (a + b)[1..] == a[1..] + b;
      FilterAppend(p, a[1..], b);
    } else {
      assert a + b == b;
    }
  }

  /** The one-element list of `x` when `p` holds of it, else the empty list. */
  function IfKept<T>(p: T -> bool, x: T): seq<T> {
    if p(x) then [x] else []
  }

  /** Filtering a list of four keeps those that pass, in order. */
  lemma {:induction false} FilterFour<T>(p: T -> bool, a: T, b: T, c: T, d: T)
    ensures Filter(p, [a, b, c, d]) == IfKept(p, a) + (IfKept(p, b) + (IfKept(p, c) + IfKept(p, d)))
  {
    assert [d] == [d] + [] && [c, d] == [c] + [d] && [b, c, d] == [b] + [c, d] && [a, b, c, d] == [a] + [b, c, d];
    FilterCons(p, d, []);
    FilterCons(p, c, [d]);
    FilterCons(p, b, [c, d]);
    FilterCons(p, a, [b, c, d]);
    assert IfKept(p, d) + Filter(p, []) == IfKept(p, d);
  }

  lemma {:induction false} FilterCons<T>(p: T -> bool, x: T, s: seq<T>)
    ensures Filter(p, [x] + s) == IfKept(p, x) + Filter(p, s)
  {
    assert ([x] + s)[1..] == s;
  }

  lemma {:induction false} MapAppend<A, B>(f: A -> B, a: seq<A>, b: seq<A>)
    ensures Map(f, a + b) == Map(f, a) + Map(f, b)
  {
  }

  /** Filtering a sequence whose elements all pass leaves it unchanged. */
  lemma {:induction false} FilterAllPass<T>(p: T -> bool, s: seq<T>)
    requires forall i :: 0 <= i < |s| ==> p(s[i])
    ensures Filter(p, s) == s
    decreases |s|
  {
    if |s| > 0 {
      FilterAllPass(p, s[1..]);
      assert [s[0]] + s[1..] == s;
    }
  }

  /** Mapping a function that fixes every element changes nothing. */
  lemma MapFixed<T>(f: T -> T, s: seq<T>)
    requires forall i :: 0 <= i < |s| ==> f(s[i]) == s[i]
    ensures Map(f, s) == s
  {
  }

  /** Filtering twice with the same test is filtering once. */
  lemma FilterIdempotent<T>(p: T -> bool, s: seq<T>)
    ensures Filter(p, Filter(p, s)) == Filter(p, s)
  {
    var r := Filter(p, s);
    forall i | 0 <= i < |r| ensures p(r[i]) {
      assert r[i] in r;
    }
    FilterAllPass(p, r);
  }

  /** `s.filter(p).length`. */
  function Count<T>(p: T -> bool, s: seq<T>): nat {
    |Filter(p, s)|
  }

  /** Counts of two tests that never hold together add up to at most the length. */
  lemma {:induction false} CountDisjoint<T>(p: T -> bool, q: T -> bool, s: seq<T>)
    requires forall x :: !(p(x) && q(x))
    ensures Count(p, s) + Count(q, s) <= |s|
    decreases |s|
  {
    if |s| > 0 {
      CountDisjoint(p, q, s[1..]);
    }
  }

  /** `s.some(p)`. */
  predicate Any<T>(p: T -> bool, s: seq<T>) {
    exists i :: 0 <= i < |s| && p(s[i])
  }

  /** No value occurs twice. */
  predicate NoDuplicates<T(==)>(s: seq<T>) {
    forall i, j :: 0 <= i < j < |s| ==> s[i] != s[j]
  }

  /** Filtering a sequence without duplicates leaves none. */
  lemma {:induction false} FilterKeepsNoDuplicates<T>(p: T -> bool, s: seq<T>)
    requires NoDuplicates(s)
    ensures NoDuplicates(Filter(p, s))
    decreases |s|
  {
    if |s| > 0 {
      assert NoDuplicates(s[1..]) by {
        forall i, j | 0 <= i < j < |s[1..]| ensures s[1..][i] != s[1..][j] {
          assert s[1..][i] == s[i + 1] && s[1..][j] == s[j + 1];
        }
      }
      FilterKeepsNoDuplicates(p, s[1..]);
      var rest := Filter(p, s[1..]);
      if p(s[0]) {
        assert s[0] !in rest;
        var r := [s[0]] + rest;
        forall i, j | 0 <= i < j < |r| ensures r[i] != r[j] {
          if i == 0 {
            assert r[j] == rest[j - 1] && r[j] in rest;
          } else {
            assert r[i] == rest[i - 1] && r[j] == rest[j - 1];
          }
        }
      } else {
        assert Filter(p, s) == rest;
      }
    }
  }

  /** `s.slice(0, n)`. */
  function Take<T>(s: seq<T>, n: nat): (r: seq<T>)
    ensures |r| == if n < |s| then n else |s|
    ensures r <= s
  {
    if n < |s| then s[..n] else s
  }

  /** `skip` then `take`: the slice of `s` from `skip` of length at most
    * `take`. */
  function Page<T>(s: seq<T>, skip: nat, take: nat): (r: seq<T>)
    ensures |r| <= take
    ensures skip <= |s| ==> r == s[skip..if skip + take <= |s| then skip + take else |s|]
    ensures skip >= |s| ==> r == []
    ensures multiset(r) <= multiset(s)
  {
    if skip < |s| then
      SliceSubMultiset(s, skip, if skip + take <= |s| then skip + take else |s|);
      Take(s[skip..], take)
    else []
  }

  /** A slice holds no element more often than the whole. */
  lemma SliceSubMultiset<T>(s: seq<T>, i: nat, j: nat)
    requires i <= j <= |s|
    ensures multiset(s[i..j]) <= multiset(s)
  {
    assert s == s[..i] + s[i..j] + s[j..];
  }

  /** Two adjacent windows make up the window covering both. */
  lemma PageConcat<T>(s: seq<T>, skip: nat, a: nat, b: nat)
    ensures Page(s, skip, a) + Page(s, skip + a, b) == Page(s, skip, a + b)
  {
    if skip < |s| {
      var m1 := if skip + a <= |s| then skip + a else |s|;
      var m2 := if skip + a + b <= |s| then skip + a + b else |s|;
      assert s[skip..m2] == s[skip..m1] + s[m1..m2];
    }
  }

  /** Two consecutive windows of the same size make one window of twice
    * the size. */
  lemma {:induction false} PagesJoin<T>(s: seq<T>, skip: nat, take: nat, first: seq<T>, second: seq<T>)
    requires first == Page(s, skip, take) && second == Page(s, skip + take, take)
    ensures first + second == Page(s, skip, 2 * take)
  {
    PageConcat(s, skip, take, take);
  }

  /** The elements in the opposite order. */
  function Reverse<T>(s: seq<T>): (r: seq<T>)
    ensures |r| == |s|
    ensures forall i :: 0 <= i < |s| ==> r[i] == s[|s| - 1 - i]
  {
    seq(|s|, i requires 0 <= i < |s| => s[|s| - 1 - i])
  }

  /** A window counted from the end: `skip` elements are passed over from
    * the end and the `take` before them are kept, in their own order. */
  function PageFromEnd<T>(s: seq<T>, skip: nat, take: nat): (r: seq<T>)
    ensures |r| <= take
    ensures var hi := if skip <= |s| then |s| - skip else 0;
      r == s[if hi >= take then hi - take else 0..hi]
    ensures multiset(r) <= multiset(s)
  {
    var hi := if skip <= |s| then |s| - skip else 0;
    var lo := if hi >= take then hi - take else 0;
    SliceSubMultiset(s, lo, hi);
    s[lo..hi]
  }

  /** Reversing a slice of the reversed sequence gives the mirrored slice. */
  lemma {:induction false} ReverseSlice<T>(s: seq<T>, a: nat, b: nat)
    requires a <= b <= |s|
    ensures Reverse(Reverse(s)[a..b]) == s[|s| - b..|s| - a]
  {
    var w := Reverse(s)[a..b];
    forall i | 0 <= i < |w| ensures Reverse(w)[i] == s[|s| - b..|s| - a][i] {
      assert Reverse(w)[i] == w[|w| - 1 - i] == Reverse(s)[b - 1 - i];
    }
  }

  /** Counting from the end is counting from the start of the reversed
    * sequence and reversing the window back. */
  lemma {:induction false} PageFromEndReversed<T>(s: seq<T>, skip: nat, take: nat)
    ensures PageFromEnd(s, skip, take) == Reverse(Page(Reverse(s), skip, take))
  {
    if skip < |s| {
      ReverseSlice(s, skip, if skip + take <= |s| then skip + take else |s|);
    } else {
      assert Page(Reverse(s), skip, take) == [];
    }
  }

  /** `s.findIndex(p)`, with `None` for `-1`: the first position whose
    * element passes. */
  function FindFirst<T>(p: T -> bool, s: seq<T>): (r: Option<nat>)
    ensures r.None? <==> forall i :: 0 <= i < |s| ==> !p(s[i])
    ensures r.Some? ==> r.value < |s| && p(s[r.value])
    ensures r.Some? ==> forall i :: 0 <= i < r.value ==> !p(s[i])
  {
    if |s| == 0 then None
    else if p(s[0]) then Some(0)
    else
      var r := FindFirst(p, s[1..]);
      if r.None? then None else Some(r.value + 1)
  }

  /** `s` is in non-increasing order of `key`. */
  predicate SortedDesc<T>(key: T -> real, s: seq<T>) {
    forall i, j :: 0 <= i < j < |s| ==> key(s[i]) >= key(s[j])
  }

  /** Inserts `x` after every element whose key is at least its own, so
    * that equal keys keep their arrival order. */
  function InsertDesc<T(==)>(key: T -> real, x: T, s: seq<T>): (r: seq<T>)
    requires SortedDesc(key, s)
    ensures |r| == |s| + 1
    ensures multiset(r) == multiset(s) + multiset{x}
    ensures r[0] == x || (|s| > 0 && r[0] == s[0])
    ensures SortedDesc(key, r)
  {
    if |s| == 0 then [x]
    else if key(s[0]) >= key(x) then
      var rest := InsertDesc(key, x, s[1..]);
      assert s == [s[0]] + s[1..];
      assert |s| > 1 ==> key(s[0]) >= key(s[1]);
      SortedCons(key, s[0], rest);
      [s[0]] + rest
    else
      [x] + s
  }

  /** A head no smaller than the first element of a sorted tail keeps it
    * sorted. */
  lemma SortedCons<T>(key: T -> real, h: T, s: seq<T>)
    requires SortedDesc(key, s)
    requires |s| > 0 ==> key(h) >= key(s[0])
    ensures SortedDesc(key, [h] + s)
  {
    var r := [h] + s;
    forall i, j | 0 <= i < j < |r| ensures key(r[i]) >= key(r[j]) {
      if i == 0 && j > 1 {
        assert key(s[0]) >= key(s[j - 1]);
      }
    }
  }

  /** `s.sort((a, b) => key(b) - key(a))`: a stable sort into non-increasing
    * key order. */
  function SortDesc<T(==)>(key: T -> real, s: seq<T>): (r: seq<T>)
    ensures |r| == |s|
    ensures multiset(r) == multiset(s)
    ensures SortedDesc(key, r)
  {
    if |s| == 0 then []
    else
      assert s == s[..|s| - 1] + [s[|s| - 1]];
      InsertDesc(key, s[|s| - 1], SortDesc(key, s[..|s| - 1]))
  }

  /** A sequence already in order is left as it is. */
  lemma {:induction false} SortDescOfSorted<T>(key: T -> real, s: seq<T>)
    requires SortedDesc(key, s)
    ensures SortDesc(key, s) == s
    decreases |s|
  {
    if |s| > 0 {
      var init := s[..|s| - 1];
      SortDescOfSorted(key, init);
      InsertLast(key, s[|s| - 1], init);
      assert init + [s[|s| - 1]] == s;
    }
  }

  /** Inserting an element no larger than every other one puts it last. */
  lemma {:induction false} InsertLast<T>(key: T -> real, x: T, s: seq<T>)
    requires SortedDesc(key, s)
    requires forall i :: 0 <= i < |s| ==> key(s[i]) >= key(x)
    ensures InsertDesc(key, x, s) == s + [x]
    decreases |s|
  {
    if |s| > 0 {
      InsertLast(key, x, s[1..]);
      assert [s[0]] + (s[1..] + [x]) == s + [x];
    }
  }

  /** The elements whose key is `k`, in order. */
  function OfKey<T>(key: T -> real, k: real, s: seq<T>): seq<T>
    decreases |s|
  {
    if |s| == 0 then [] else (if key(s[0]) == k then [s[0]] else []) + OfKey(key, k, s[1..])
  }

  lemma {:induction false} OfKeyAppend<T>(key: T -> real, k: real, a: seq<T>, b: seq<T>)
    ensures OfKey(key, k, a + b) == OfKey(key, k, a) + OfKey(key, k, b)
    decreases |a|
  {
    if |a| > 0 {
      assert (a + b)[1..] == a[1..] + b;
      OfKeyAppend(key, k, a[1..], b);
    } else {
      assert a + b == b;
    }
  }

  /** No element of a sorted sequence headed by a key below `k` has key `k`. */
  lemma {:induction false} OfKeyBelow<T>(key: T -> real, k: real, s: seq<T>)
    requires SortedDesc(key, s)
    requires |s| > 0 ==> key(s[0]) < k
    ensures OfKey(key, k, s) == []
    decreases |s|
  {
    if |s| > 1 {
      assert key(s[0]) >= key(s[1]);
      OfKeyBelow(key, k, s[1..]);
    }
  }

  /** Inserting past a head whose key is at least that of `x`. */
  lemma {:induction false} InsertDescPassesHead<T>(key: T -> real, x: T, s: seq<T>)
    requires SortedDesc(key, s) && |s| > 0 && key(s[0]) >= key(x)
    ensures SortedDesc(key, s[1..])
    ensures InsertDesc(key, x, s) == [s[0]] + InsertDesc(key, x, s[1..])
  {
  }

  /** Inserting `x` keeps the order among the elements of each key and
    * places `x` after the elements of its own key. */
  lemma {:induction false} InsertDescStable<T>(key: T -> real, x: T, s: seq<T>, k: real)
    requires SortedDesc(key, s)
    ensures OfKey(key, k, InsertDesc(key, x, s)) == OfKey(key, k, s) + OfKey(key, k, [x])
    decreases |s|, 1
  {
    if |s| > 0 && key(s[0]) >= key(x) {
      InsertAfterHeadStable(key, x, s, k);
    } else if |s| > 0 {
      InsertBeforeHeadStable(key, x, s, k);
    }
  }

  lemma {:induction false} InsertAfterHeadStable<T>(key: T -> real, x: T, s: seq<T>, k: real)
    requires SortedDesc(key, s) && |s| > 0 && key(s[0]) >= key(x)
    ensures OfKey(key, k, InsertDesc(key, x, s)) == OfKey(key, k, s) + OfKey(key, k, [x])
    decreases |s|, 0
  {
    var head, tail := [s[0]], s[1..];
    var rest := InsertDesc(key, x, tail);
    InsertDescPassesHead(key, x, s);
    InsertDescStable(key, x, tail, k);
    OfKeyAppend(key, k, head, rest);
    OfKeyAppend(key, k, head, tail);
    assert head + tail == s;
    JoinAfter(OfKey(key, k, head), OfKey(key, k, rest), OfKey(key, k, tail), OfKey(key, k, [x]));
  }

  /** `a + b` is `(a + c) + d` when `b` is `c + d`. */
  lemma JoinAfter<T>(a: seq<T>, b: seq<T>, c: seq<T>, d: seq<T>)
    requires b == c + d
    ensures a + b == (a + c) + d
  {
  }

  lemma {:induction false} InsertBeforeHeadStable<T>(key: T -> real, x: T, s: seq<T>, k: real)
    requires SortedDesc(key, s) && |s| > 0 && key(s[0]) < key(x)
    ensures OfKey(key, k, InsertDesc(key, x, s)) == OfKey(key, k, s) + OfKey(key, k, [x])
  {
    OfKeyAppend(key, k, [x], s);
    if key(x) == k {
      OfKeyBelow(key, k, s);
    }
  }

  /** The sort is stable: the elements of each key come out in the order
    * they went in. */
  lemma {:induction false} SortDescStable<T>(key: T -> real, s: seq<T>, k: real)
    ensures OfKey(key, k, SortDesc(key, s)) == OfKey(key, k, s)
    decreases |s|
  {
    if |s| > 0 {
      var init, last := s[..|s| - 1], s[|s| - 1];
      SortDescStable(key, init, k);
      InsertDescStable(key, last, SortDesc(key, init), k);
      assert s == init + [last];
      OfKeyAppend(key, k, init, [last]);
    }
  }
}
