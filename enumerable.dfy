/**
 * The LINQ operators the registry's queries are built from (Where, Any,
 * FirstOrDefault, Max, OrderBy), as functions over sequences. OrderBy is a
 * stable sort; its stability is stated as: for every key, the elements with
 * that key come out in the order they went in.
 */
module Enumerable {
  import opened Wrappers

  /** `r` is `s` with some elements dropped and the rest kept in order. */
  ghost predicate IsSubsequence<T>(r: seq<T>, s: seq<T>)
    decreases |s|
  {
    r == [] || (s != [] && ((r[0] == s[0] && IsSubsequence(r[1..], s[1..])) || IsSubsequence(r, s[1..])))
  }

  /** Enumerable.Where: the elements of `s` satisfying `p`, in their order in `s`. */
  function Where<T(!new)>(s: seq<T>, p: T -> bool): (r: seq<T>)
    ensures forall x :: x in r <==> x in s && p(x)
    decreases |s|
  {
    if s == [] then []
    else if p(s[0]) then [s[0]] + Where(s[1..], p) else Where(s[1..], p)
  }

  /** Where keeps every element that passes as often as it occurs, and no other. */
  lemma {:induction false} WhereCounts<T(!new)>(s: seq<T>, p: T -> bool)
    ensures forall x :: multiset(Where(s, p))[x] == if p(x) then multiset(s)[x] else 0
    decreases |s|
  {
    if s != [] {
      WhereCounts(s[1..], p);
      assert s == [s[0]] + s[1..];
    }
  }

  lemma {:induction false} WhereIsSubsequence<T(!new)>(s: seq<T>, p: T -> bool)
    ensures IsSubsequence(Where(s, p), s)
    decreases |s|
  {
    if s != [] {
      WhereIsSubsequence(s[1..], p);
      var r := Where(s, p);
      if p(s[0]) {
        assert r[0] == s[0] && r[1..] == Where(s[1..], p);
      }
    }
  }

  lemma {:induction false} WhereConcat<T(!new)>(a: seq<T>, b: seq<T>, p: T -> bool)
    ensures Where(a + b, p) == Where(a, p) + Where(b, p)
    decreases |a|
  {
    if a == [] {
      assert a + b == b;
    } else {
      assert (a + b)[0] == a[0] && (a + b)[1..] == a[1..] + b;
      WhereConcat(a[1..], b, p);
    }
  }

  /** Filtering one element: the LINQ pipeline seen one element at a time. */
  lemma WhereCons<T(!new)>(x: T, s: seq<T>, p: T -> bool)
    ensures Where([x] + s, p) == (if p(x) then [x] else []) + Where(s, p)
  {
    WhereConcat([x], s, p);
    assert Where([x], p) == if p(x) then [x] else [];
  }

  /** Two Where calls in a row are one Where on the conjunction. */
  lemma {:induction false} WhereWhere<T(!new)>(s: seq<T>, p: T -> bool, q: T -> bool, both: T -> bool)
    requires forall x :: both(x) == (p(x) && q(x))
    ensures Where(Where(s, p), q) == Where(s, both)
    decreases |s|
  {
    if s != [] {
      WhereWhere(s[1..], p, q, both);
      if p(s[0]) {
        WhereCons(s[0], Where(s[1..], p), q);
      }
    }
  }

  /** Where depends only on which elements the predicate accepts. */
  lemma {:induction false} WhereSamePredicate<T(!new)>(s: seq<T>, p: T -> bool, q: T -> bool)
    requires forall x :: x in s ==> p(x) == q(x)
    ensures Where(s, p) == Where(s, q)
    decreases |s|
  {
    if s != [] {
      WhereSamePredicate(s[1..], p, q);
    }
  }

  /** A filter that every element passes changes nothing. */
  lemma {:induction false} WhereKeepsAll<T(!new)>(s: seq<T>, p: T -> bool)
    requires forall x :: x in s ==> p(x)
    ensures Where(s, p) == s
    decreases |s|
  {
    if s != [] {
      WhereKeepsAll(s[1..], p);
      assert s == [s[0]] + s[1..];
    }
  }

  /** A filter that no element passes leaves nothing. */
  lemma WhereKeepsNone<T(!new)>(s: seq<T>, p: T -> bool)
    requires forall x :: x in s ==> !p(x)
    ensures Where(s, p) == []
  {
    if Where(s, p) != [] {
      assert Where(s, p)[0] in Where(s, p);
    }
  }

  /** Enumerable.Any: some element of `s` satisfies `p`. */
  function Any<T>(s: seq<T>, p: T -> bool): (b: bool)
    ensures b <==> exists i :: 0 <= i < |s| && p(s[i])
    decreases |s|
  {
    if s == [] then false
    else p(s[0]) || (assert forall i :: 0 <= i < |s| - 1 ==> s[1..][i] == s[i + 1]; Any(s[1..], p))
  }

  /** The position of the first element of `s` satisfying `p`, if there is one. */
  function FirstIndex<T>(s: seq<T>, p: T -> bool): (r: Option<nat>)
    ensures r.None? <==> forall i :: 0 <= i < |s| ==> !p(s[i])
    ensures r.Some? ==> r.value < |s| && p(s[r.value]) && forall j :: 0 <= j < r.value ==> !p(s[j])
    decreases |s|
  {
    if s == [] then None
    else if p(s[0]) then Some(0)
    else
      match FirstIndex(s[1..], p)
      case None => None
      case Some(i) => Some(i + 1)
  }

  /** FirstIndex depends only on which positions the predicate accepts. */
  lemma {:induction false} FirstIndexSamePositions<T>(a: seq<T>, b: seq<T>, p: T -> bool)
    requires |a| == |b|
    requires forall i :: 0 <= i < |a| ==> p(a[i]) == p(b[i])
    ensures FirstIndex(a, p) == FirstIndex(b, p)
    decreases |a|
  {
    if a != [] {
      FirstIndexSamePositions(a[1..], b[1..], p);
    }
  }

  /** Enumerable.FirstOrDefault on a sequence of references: null (None) when nothing matches. */
  function FirstOrDefault<T(!new)>(s: seq<T>, p: T -> bool): (r: Option<T>)
    ensures r.None? <==> forall x :: x in s ==> !p(x)
    ensures r.Some? ==> exists i :: 0 <= i < |s| && s[i] == r.value && p(s[i]) && forall j :: 0 <= j < i ==> !p(s[j])
  {
    match FirstIndex(s, p)
    case None => None
    case Some(i) => Some(s[i])
  }

  /** Enumerable.Max with a selector; it throws on an empty sequence, hence the requires. */
  function Max<T>(s: seq<T>, f: T -> int): (m: int)
    requires s != []
    ensures exists i :: 0 <= i < |s| && f(s[i]) == m
    ensures forall i :: 0 <= i < |s| ==> f(s[i]) <= m
    decreases |s|
  {
    if |s| == 1 then f(s[0])
    else
      var rest := Max(s[1..], f);
      assert forall i :: 1 <= i < |s| ==> s[i] == s[1..][i - 1];
      if rest <= f(s[0]) then f(s[0]) else rest
  }

  /** No two elements share a key. */
  ghost predicate Distinct<T>(s: seq<T>, key: T -> int) {
    forall i, j :: 0 <= i < j < |s| ==> key(s[i]) != key(s[j])
  }

  /** Dropping elements keeps keys distinct. */
  lemma {:induction false} WhereDistinct<T(!new)>(s: seq<T>, p: T -> bool, key: T -> int)
    requires Distinct(s, key)
    ensures Distinct(Where(s, p), key)
    decreases |s|
  {
    if s != [] {
      var rest := Where(s[1..], p);
      WhereDistinct(s[1..], p, key);
      if p(s[0]) {
        forall j | 0 <= j < |rest| ensures key(s[0]) != key(rest[j]) {
          assert rest[j] in s[1..];
        }
      }
    }
  }

  /** Every element's key is at most the key of every later element. */
  ghost predicate SortedBy<T>(s: seq<T>, key: T -> int) {
    forall i, j :: 0 <= i < j < |s| ==> key(s[i]) <= key(s[j])
  }

  /** The elements whose key is `k`. */
  function KeyIs<T>(key: T -> int, k: int): T -> bool {
    x => key(x) == k
  }

  /**
   * Puts `x` before the first element whose key is not smaller than its own:
   * `x` goes ahead of the elements with an equal key.
   */
  function InsertBy<T>(x: T, s: seq<T>, key: T -> int): seq<T>
    decreases |s|
  {
    if s == [] || key(x) <= key(s[0]) then [x] + s
    else [s[0]] + InsertBy(x, s[1..], key)
  }

  /** Inserting adds `x` and nothing else. */
  lemma {:induction false} InsertByElements<T(!new)>(x: T, s: seq<T>, key: T -> int)
    ensures multiset(InsertBy(x, s, key)) == multiset(s) + multiset{x}
    ensures forall y :: y in InsertBy(x, s, key) <==> y == x || y in s
    decreases |s|
  {
    if s != [] && key(x) > key(s[0]) {
      InsertByElements(x, s[1..], key);
      assert s == [s[0]] + s[1..];
    }
  }

  lemma {:induction false} InsertBySorted<T(!new)>(x: T, s: seq<T>, key: T -> int)
    requires SortedBy(s, key)
    ensures SortedBy(InsertBy(x, s, key), key)
    decreases |s|
  {
    if s != [] && key(x) > key(s[0]) {
      InsertBySorted(x, s[1..], key);
      InsertByElements(x, s[1..], key);
      var rest := InsertBy(x, s[1..], key);
      assert forall y :: y in rest ==> key(s[0]) <= key(y);
    }
  }

  /**
   * Enumerable.OrderBy: a stable sort of `s` by ascending key. Each element is
   * inserted ahead of the later elements with an equal key, so equal keys keep
   * their order.
   */
  function SortBy<T(!new)>(s: seq<T>, key: T -> int): (r: seq<T>)
    ensures multiset(r) == multiset(s)
    ensures SortedBy(r, key)
    decreases |s|
  {
    if s == [] then []
    else
      assert s == [s[0]] + s[1..];
      InsertBySorted(s[0], SortBy(s[1..], key), key);
      InsertByElements(s[0], SortBy(s[1..], key), key);
      InsertBy(s[0], SortBy(s[1..], key), key)
  }

  /** Sorting keeps the same elements. */
  lemma SortByMembers<T(!new)>(s: seq<T>, key: T -> int)
    ensures forall y :: y in SortBy(s, key) <==> y in s
  {
    var r := SortBy(s, key);
    forall y ensures y in r <==> y in s {
      assert y in r <==> y in multiset(r);
    }
  }

  /** Inserting `x` adds it in front of the elements with its own key, and touches no other key's order. */
  lemma {:induction false} InsertByPerKey<T(!new)>(x: T, s: seq<T>, key: T -> int, k: int)
    ensures Where(InsertBy(x, s, key), KeyIs(key, k)) == (if key(x) == k then [x] else []) + Where(s, KeyIs(key, k))
    decreases |s|
  {
    var p := KeyIs(key, k);
    var mine: seq<T> := if key(x) == k then [x] else [];
    if s == [] || key(x) <= key(s[0]) {
      assert InsertBy(x, s, key) == [x] + s;
      WhereCons(x, s, p);
    } else {
      var head, tail := s[0], s[1..];
      var rest := InsertBy(x, tail, key);
      assert InsertBy(x, s, key) == [head] + rest;
      assert s == [head] + tail;
      InsertByPerKey(x, tail, key, k);
      assert Where(rest, p) == mine + Where(tail, p);
      WhereCons(head, rest, p);
      WhereCons(head, tail, p);
      if p(head) {
        assert mine == [];
      }
    }
  }

  /** SortBy is stable: for each key, the elements with that key keep their relative order. */
  lemma {:induction false} SortByStable<T(!new)>(s: seq<T>, key: T -> int, k: int)
    ensures Where(SortBy(s, key), KeyIs(key, k)) == Where(s, KeyIs(key, k))
    decreases |s|
  {
    if s != [] {
      SortByStable(s[1..], key, k);
      InsertByPerKey(s[0], SortBy(s[1..], key), key, k);
      assert s == [s[0]] + s[1..];
      WhereCons(s[0], s[1..], KeyIs(key, k));
    }
  }

  /**
   * The elements with key `lo`, then those with key `lo + 1`, and so on up to
   * `hi - 1`, each group in the order of `s`.
   */
  function KeyBlocks<T(!new)>(s: seq<T>, key: T -> int, lo: int, hi: int): seq<T>
    decreases hi - lo
  {
    if lo >= hi then [] else Where(s, KeyIs(key, lo)) + KeyBlocks(s, key, lo + 1, hi)
  }

  lemma {:induction false} KeyBlocksKeys<T(!new)>(s: seq<T>, key: T -> int, lo: int, hi: int)
    ensures forall y :: y in KeyBlocks(s, key, lo, hi) ==> y in s && lo <= key(y) < hi
    decreases hi - lo
  {
    if lo < hi {
      KeyBlocksKeys(s, key, lo + 1, hi);
    }
  }

  lemma {:induction false} KeyBlocksOfEmpty<T(!new)>(key: T -> int, lo: int, hi: int)
    ensures KeyBlocks([], key, lo, hi) == []
    decreases hi - lo
  {
    if lo < hi {
      KeyBlocksOfEmpty(key, lo + 1, hi);
    }
  }

  /** An element whose key lies below the blocks is in none of them. */
  lemma {:induction false} KeyBlocksSkip<T(!new)>(x: T, s: seq<T>, key: T -> int, lo: int, hi: int)
    requires key(x) < lo
    ensures KeyBlocks([x] + s, key, lo, hi) == KeyBlocks(s, key, lo, hi)
    decreases hi - lo
  {
    if lo < hi {
      WhereCons(x, s, KeyIs(key, lo));
      KeyBlocksSkip(x, s, key, lo + 1, hi);
    }
  }

  /** An element whose key is at most every key in `s` goes in front. */
  lemma InsertByFront<T>(x: T, s: seq<T>, key: T -> int)
    requires forall y :: y in s ==> key(x) <= key(y)
    ensures InsertBy(x, s, key) == [x] + s
  {
    if s != [] {
      assert s[0] in s;
    }
  }

  /** Inserting past a front part of smaller keys leaves that part in place. */
  lemma {:induction false} InsertByAfter<T>(x: T, front: seq<T>, back: seq<T>, key: T -> int)
    requires forall y :: y in front ==> key(y) < key(x)
    ensures InsertBy(x, front + back, key) == front + InsertBy(x, back, key)
    decreases |front|
  {
    if front == [] {
      assert front + back == back;
    } else {
      assert front[0] in front;
      assert front + back == [front[0]] + (front[1..] + back);
      InsertByAfter(x, front[1..], back, key);
      assert front == [front[0]] + front[1..];
    }
  }

  /** Inserting into the blocks puts `x` at the head of the block of its own key. */
  lemma {:induction false} InsertIntoKeyBlocks<T(!new)>(x: T, s: seq<T>, key: T -> int, lo: int, hi: int)
    requires lo <= key(x) < hi
    ensures InsertBy(x, KeyBlocks(s, key, lo, hi), key) == KeyBlocks([x] + s, key, lo, hi)
    decreases hi - lo
  {
    if key(x) == lo {
      InsertIntoOwnKeyBlock(x, s, key, lo, hi);
    } else {
      InsertIntoKeyBlocks(x, s, key, lo + 1, hi);
      InsertPastKeyBlock(x, s, key, lo, hi);
    }
  }

  /** `x` goes to the head of the first block when that block has its key. */
  lemma InsertIntoOwnKeyBlock<T(!new)>(x: T, s: seq<T>, key: T -> int, lo: int, hi: int)
    requires key(x) == lo < hi
    ensures InsertBy(x, KeyBlocks(s, key, lo, hi), key) == KeyBlocks([x] + s, key, lo, hi)
  {
    var here, rest := Where(s, KeyIs(key, lo)), KeyBlocks(s, key, lo + 1, hi);
    WhereCons(x, s, KeyIs(key, lo));
    assert KeyBlocks([x] + s, key, lo, hi) == ([x] + here) + rest by {
      KeyBlocksSkip(x, s, key, lo + 1, hi);
    }
    forall y | y in here + rest ensures key(x) <= key(y) {
      if y in rest {
        KeyBlocksKeys(s, key, lo + 1, hi);
      }
    }
    InsertByFront(x, here + rest, key);
    assert [x] + (here + rest) == ([x] + here) + rest;
  }

  /** `x` passes over the first block when its key is larger. */
  lemma InsertPastKeyBlock<T(!new)>(x: T, s: seq<T>, key: T -> int, lo: int, hi: int)
    requires lo < key(x) < hi
    requires InsertBy(x, KeyBlocks(s, key, lo + 1, hi), key) == KeyBlocks([x] + s, key, lo + 1, hi)
    ensures InsertBy(x, KeyBlocks(s, key, lo, hi), key) == KeyBlocks([x] + s, key, lo, hi)
  {
    var here, rest := Where(s, KeyIs(key, lo)), KeyBlocks(s, key, lo + 1, hi);
    WhereCons(x, s, KeyIs(key, lo));
    assert forall y :: y in here ==> key(y) == lo;
    InsertByAfter(x, here, rest, key);
    assert [] + here == here;
  }

  /**
   * Sorting by a key whose values lie in [lo, hi) groups the elements by key
   * in ascending order, keeping each group in the order of `s`.
   */
  lemma {:induction false} SortByIsKeyBlocks<T(!new)>(s: seq<T>, key: T -> int, lo: int, hi: int)
    requires forall y :: y in s ==> lo <= key(y) < hi
    ensures SortBy(s, key) == KeyBlocks(s, key, lo, hi)
    decreases |s|
  {
    if s == [] {
      KeyBlocksOfEmpty(key, lo, hi);
    } else {
      assert s == [s[0]] + s[1..];
      assert s[0] in s;
      assert forall y :: y in s[1..] ==> y in s;
      SortByIsKeyBlocks(s[1..], key, lo, hi);
      InsertIntoKeyBlocks(s[0], s[1..], key, lo, hi);
      calc {
        SortBy(s, key);
        InsertBy(s[0], SortBy(s[1..], key), key);
        InsertBy(s[0], KeyBlocks(s[1..], key, lo, hi), key);
        KeyBlocks([s[0]] + s[1..], key, lo, hi);
      }
    }
  }

  /** The index in `s` of the first element of SortBy(s, key). */
  lemma SortByFirstIndex<T(!new)>(s: seq<T>, key: T -> int) returns (i: nat)
    requires s != []
    ensures i < |s| && |SortBy(s, key)| == |s| && SortBy(s, key)[0] == s[i]
    ensures forall j :: 0 <= j < |s| ==> key(s[i]) <= key(s[j])
    ensures forall j :: 0 <= j < i ==> key(s[i]) < key(s[j])
  {
    var r := SortBy(s, key);
    assert multiset(r) == multiset(s);
    assert |r| == |s| by {
      assert |multiset(r)| == |multiset(s)|;
    }
    var k := key(r[0]);
    forall j | 0 <= j < |s| ensures k <= key(s[j]) {
      assert s[j] in multiset(r);
      var m :| 0 <= m < |r| && r[m] == s[j];
    }
    SortByStable(s, key, k);
    var p := KeyIs(key, k);
    assert r == [r[0]] + r[1..];
    WhereCons(r[0], r[1..], p);
    WhereFirst(s, p);
    i := FirstIndex(s, p).value;
  }

  /**
   * SortBy(...).First(): the first element, in the order of `s`, among those
   * with the smallest key.
   */
  lemma SortByFirst<T(!new)>(s: seq<T>, key: T -> int)
    requires s != []
    ensures |SortBy(s, key)| == |s|
    ensures forall j :: 0 <= j < |s| ==> key(SortBy(s, key)[0]) <= key(s[j])
    ensures exists i :: 0 <= i < |s| && SortBy(s, key)[0] == s[i] && forall j :: 0 <= j < i ==> key(s[i]) < key(s[j])
  {
    var i := SortByFirstIndex(s, key);
  }

  /** The first element Where keeps is the one FirstIndex finds. */
  lemma {:induction false} WhereFirst<T(!new)>(s: seq<T>, p: T -> bool)
    requires Where(s, p) != []
    ensures FirstIndex(s, p).Some? && Where(s, p)[0] == s[FirstIndex(s, p).value]
    decreases |s|
  {
    if !p(s[0]) {
      WhereFirst(s[1..], p);
    }
  }
}
