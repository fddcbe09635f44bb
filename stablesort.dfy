/** Python's `list.sort(key=lambda x: x[1], reverse=True)` on (key, count)
    pairs, as used by `Analyzer.get_contributors`: a stable sort by count,
    largest first, that keeps entries with equal counts in their original
    order. Modelled as a functional insertion sort. */
module StableSort {

  predicate SortedDesc<K>(s: seq<(K, nat)>)
  {
    forall i, j :: 0 <= i < j < |s| ==> s[i].1 >= s[j].1
  }

  /** The entries of `s` whose count is `c`, in their order in `s`. */
  function WithCount<K>(s: seq<(K, nat)>, c: nat): seq<(K, nat)>
  {
    if |s| == 0 then [] else (if s[0].1 == c then [s[0]] else []) + WithCount(s[1..], c)
  }

  /** The sum of the counts. */
  function Total<K>(s: seq<(K, nat)>): nat
  {
    if |s| == 0 then 0 else s[0].1 + Total(s[1..])
  }

  lemma {:induction false} WithCountConcat<K>(a: seq<(K, nat)>, b: seq<(K, nat)>, c: nat)
    ensures WithCount(a + b, c) == WithCount(a, c) + WithCount(b, c)
  {
    if |a| == 0 {
      assert a + b == b;
    } else {
      var head := if a[0].1 == c then [a[0]] else [];
      assert (a + b)[0] == a[0] && (a + b)[1..] == a[1..] + b;
      assert WithCount(a + b, c) == head + WithCount(a[1..] + b, c);
      WithCountConcat(a[1..], b, c);
      assert head + (WithCount(a[1..], c) + WithCount(b, c)) == (head + WithCount(a[1..], c)) + WithCount(b, c);
    }
  }

  lemma {:induction false} TotalConcat<K>(a: seq<(K, nat)>, b: seq<(K, nat)>)
    ensures Total(a + b) == Total(a) + Total(b)
  {
    if |a| == 0 {
      assert a + b == b;
    } else {
      assert (a + b)[0] == a[0] && (a + b)[1..] == a[1..] + b;
      TotalConcat(a[1..], b);
    }
  }

  /** A sorted list whose counts are all below `c` has no entry with count `c`. */
  lemma {:induction false} NoneWithCount<K>(s: seq<(K, nat)>, c: nat)
    requires SortedDesc(s)
    requires |s| > 0 ==> s[0].1 < c
    ensures WithCount(s, c) == []
  {
    if |s| > 0 {
      assert |s| > 1 ==> s[1].1 <= s[0].1;
      NoneWithCount(s[1..], c);
    }
  }

  /** Insert `x` after every entry whose count is at least `x`'s. */
  function Insert<K>(s: seq<(K, nat)>, x: (K, nat)): seq<(K, nat)>
  {
    if |s| == 0 then [x]
    else if s[0].1 >= x.1 then [s[0]] + Insert(s[1..], x)
    else [x] + s
  }

  lemma {:induction false} InsertMultiset<K>(s: seq<(K, nat)>, x: (K, nat))
    ensures multiset(Insert(s, x)) == multiset(s) + multiset{x}
  {
    if |s| > 0 && s[0].1 >= x.1 {
      InsertMultiset(s[1..], x);
      assert s == [s[0]] + s[1..];
    }
  }

  /** No count in `s` exceeds `n`. */
  predicate AtMost<K>(s: seq<(K, nat)>, n: nat)
  {
    forall i :: 0 <= i < |s| ==> s[i].1 <= n
  }

  lemma ConsSorted<K>(h: (K, nat), t: seq<(K, nat)>)
    requires SortedDesc(t) && AtMost(t, h.1)
    ensures SortedDesc([h] + t)
  {
    var r := [h] + t;
    forall i, j | 0 <= i < j < |r| ensures r[i].1 >= r[j].1 {
      assert r[j] == t[j - 1];
      if i > 0 {
        assert r[i] == t[i - 1];
      }
    }
  }

  lemma {:induction false} InsertAtMost<K>(s: seq<(K, nat)>, x: (K, nat), n: nat)
    requires AtMost(s, n) && x.1 <= n
    ensures AtMost(Insert(s, x), n)
  {
    if |s| > 0 && s[0].1 >= x.1 {
      InsertAtMost(s[1..], x, n);
      var r := Insert(s, x);
      assert r == [s[0]] + Insert(s[1..], x);
      forall i | 0 <= i < |r| ensures r[i].1 <= n {
        if i > 0 {
          assert r[i] == Insert(s[1..], x)[i - 1];
        }
      }
    }
  }

  lemma {:induction false} InsertSorted<K>(s: seq<(K, nat)>, x: (K, nat))
    requires SortedDesc(s)
    ensures SortedDesc(Insert(s, x))
  {
    if |s| == 0 {
      assert Insert(s, x) == [x];
    } else if s[0].1 >= x.1 {
      InsertSorted(s[1..], x);
      assert AtMost(s[1..], s[0].1) by {
        forall i | 0 <= i < |s[1..]| ensures s[1..][i].1 <= s[0].1 {
          assert s[1..][i] == s[i + 1];
        }
      }
      InsertAtMost(s[1..], x, s[0].1);
      ConsSorted(s[0], Insert(s[1..], x));
    } else {
      assert AtMost(s, x.1);
      ConsSorted(x, s);
    }
  }

  lemma {:induction false} InsertWithCount<K>(s: seq<(K, nat)>, x: (K, nat), c: nat)
    requires SortedDesc(s)
    ensures WithCount(Insert(s, x), c) == WithCount(s, c) + WithCount([x], c)
  {
    if |s| == 0 {
      assert Insert(s, x) == [x];
    } else if s[0].1 >= x.1 {
      var t := Insert(s[1..], x);
      InsertWithCount(s[1..], x, c);
      WithCountConcat([s[0]], t, c);
      assert s == [s[0]] + s[1..];
      WithCountConcat([s[0]], s[1..], c);
    } else {
      WithCountConcat([x], s, c);
      if x.1 == c {
        NoneWithCount(s, c);
      }
    }
  }

  lemma {:induction false} InsertTotal<K>(s: seq<(K, nat)>, x: (K, nat))
    ensures Total(Insert(s, x)) == Total(s) + x.1
  {
    if |s| > 0 && s[0].1 >= x.1 {
      InsertTotal(s[1..], x);
      TotalConcat([s[0]], Insert(s[1..], x));
      assert s == [s[0]] + s[1..];
      TotalConcat([s[0]], s[1..]);
    } else {
      TotalConcat([x], s);
    }
  }

  /** The stable sort: sorted by count, largest first, a permutation of its
      input, and for every count the entries with that count are in input
      order (together these fix the result). */
  function SortDesc<K>(s: seq<(K, nat)>): (r: seq<(K, nat)>)
    ensures SortedDesc(r)
    ensures multiset(r) == multiset(s)
    ensures forall c :: WithCount(r, c) == WithCount(s, c)
    ensures Total(r) == Total(s)
  {
    if |s| == 0 then []
    else
      var init, last := s[..|s| - 1], s[|s| - 1];
      assert s == init + [last];
      assert forall c :: WithCount(s, c) == WithCount(init, c) + WithCount([last], c) by {
        forall c { WithCountConcat(init, [last], c); }
      }
      TotalConcat(init, [last]);
      var sorted := SortDesc(init);
      InsertSorted(sorted, last);
      InsertMultiset(sorted, last);
      InsertTotal(sorted, last);
      assert forall c :: WithCount(Insert(sorted, last), c) == WithCount(sorted, c) + WithCount([last], c) by {
        forall c { InsertWithCount(sorted, last, c); }
      }
      Insert(sorted, last)
  }
}
