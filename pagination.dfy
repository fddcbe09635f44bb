/** What `Repository._get_all_pages` (repo_analyzer/repo.py) promises, stated
    over the page-by-page description in module Repo, and a finite record
    source served in pages on which the loop provably ends. */
module Pagination {
  import opened Wrappers
  import opened Errors
  import opened Repo

  /** The last request of a fetch is determined by the responses. */
  lemma StopsAtUnique<R>(http: Http<R>, url: string, base: Params, cap: nat, k1: nat, k2: nat)
    requires StopsAt(http, url, base, cap, k1) && StopsAt(http, url, base, cap, k2)
    ensures k1 == k2
  {
  }

  /** A fetch ends no later than the first short page. */
  lemma StopsNoLater<R>(http: Http<R>, url: string, base: Params, cap: nat, k: nat, m: nat)
    requires StopsAt(http, url, base, cap, k)
    requires m >= 1 && Page(http, url, base, PageSize(cap), m).Success?
    requires |Page(http, url, base, PageSize(cap), m).value| < PageSize(cap)
    ensures k <= m
  {
    assert !Continues(http, url, base, cap, m);
  }

  /** A cap of at most one page is met or missed by the first page: one request. */
  lemma {:induction false} SmallCapSingleRequest<R>(http: Http<R>, url: string, base: Params, cap: nat, k: nat)
    requires 0 < cap <= PageSizeLimit
    requires StopsAt(http, url, base, cap, k)
    ensures k == 1
  {
    var ps := PageSize(cap);
    assert Fetched(http, url, base, ps, 1) == Records(Page(http, url, base, ps, 1));
    assert !Continues(http, url, base, cap, 1);
  }

  /** Without a cap the result is every record of pages 1..k, where every
      earlier page was full and page k came back short. */
  lemma UncappedResult<R>(http: Http<R>, url: string, base: Params, k: nat, data: seq<R>)
    requires StopsAt(http, url, base, 0, k)
    requires Outcome(http, url, base, 0, k) == Success(data)
    ensures data == Fetched(http, url, base, PageSizeLimit, k)
    ensures forall i :: 1 <= i < k ==>
              Page(http, url, base, PageSizeLimit, i).Success? && |Page(http, url, base, PageSizeLimit, i).value| >= PageSizeLimit
    ensures Page(http, url, base, PageSizeLimit, k).Success? && |Page(http, url, base, PageSizeLimit, k).value| < PageSizeLimit
  {
    forall i | 1 <= i < k
      ensures Page(http, url, base, PageSizeLimit, i).Success? && |Page(http, url, base, PageSizeLimit, i).value| >= PageSizeLimit
    {
      assert Continues(http, url, base, 0, i);
    }
  }

  /** With a cap the result is the first min(cap, n) of the n fetched records,
      the cap was not yet met before page k, and page k was short or met it. */
  lemma CappedResult<R>(http: Http<R>, url: string, base: Params, cap: nat, k: nat, data: seq<R>)
    requires cap > 0
    requires StopsAt(http, url, base, cap, k)
    requires Outcome(http, url, base, cap, k) == Success(data)
    ensures var all := Fetched(http, url, base, PageSize(cap), k);
            |data| == (if cap < |all| then cap else |all|) && data == all[..|data|]
    ensures forall i :: 1 <= i < k ==> |Fetched(http, url, base, PageSize(cap), i)| < cap
    ensures |Page(http, url, base, PageSize(cap), k).value| < PageSize(cap)
            || |Fetched(http, url, base, PageSize(cap), k)| >= cap
  {
    forall i | 1 <= i < k ensures |Fetched(http, url, base, PageSize(cap), i)| < cap {
      assert Continues(http, url, base, cap, i);
    }
  }

  /** A failed request leaves no records: the fetch ends with that page's error. */
  lemma FailureAborts<R>(http: Http<R>, url: string, base: Params, cap: nat, k: nat)
    requires StopsAt(http, url, base, cap, k)
    requires Outcome(http, url, base, cap, k).Failure?
    ensures http(url, PageParams(base, PageSize(cap), k)).status != 200
    ensures Outcome(http, url, base, cap, k).error
            == RepositoryError("API request error: " + http(url, PageParams(base, PageSize(cap), k)).text)
    ensures forall i :: 1 <= i < k ==> http(url, PageParams(base, PageSize(cap), i)).status == 200
  {
    forall i | 1 <= i < k
      ensures http(url, PageParams(base, PageSize(cap), i)).status == 200
    {
      assert Continues(http, url, base, cap, i);
    }
  }

  function Min(a: nat, b: nat): nat { if a < b then a else b }

  /** Page `page` of `all`, `pageSize` records to a page (the last one shorter). */
  function Slice<R>(all: seq<R>, pageSize: nat, page: nat): seq<R>
  {
    if page == 0 then [] else all[Min((page - 1) * pageSize, |all|)..Min(page * pageSize, |all|)]
  }

  /** A server holding the finite record list `all` and serving it by `per_page` and `page`. */
  function Sliced<R>(all: seq<R>): Http<R>
  {
    (url: string, p: Params) =>
      if "per_page" in p && p["per_page"].PInt? && p["per_page"].i >= 0 && "page" in p && p["page"].PInt? && p["page"].i >= 0
      then Response(200, "", Slice(all, p["per_page"].i, p["page"].i))
      else Response(200, "", [])
  }

  lemma SlicedPage<R>(all: seq<R>, url: string, base: Params, pageSize: nat, page: nat)
    ensures Page(Sliced(all), url, base, pageSize, page) == Success(Slice(all, pageSize, page))
  {
    var p := PageParams(base, pageSize, page);
    assert p["per_page"] == PInt(pageSize) && p["page"] == PInt(page);
  }

  /** `http` answers every page request for `url` and `base` with that page of `all`. */
  ghost predicate Serves<R>(http: Http<R>, url: string, base: Params, all: seq<R>)
  {
    forall pageSize: nat, page: nat :: Page(http, url, base, pageSize, page) == Success(Slice(all, pageSize, page))
  }

  /** The sliced source is such a server. */
  lemma SlicedServes<R>(all: seq<R>, url: string, base: Params)
    ensures Serves(Sliced(all), url, base, all)
  {
    forall pageSize: nat, page: nat
      ensures Page(Sliced(all), url, base, pageSize, page) == Success(Slice(all, pageSize, page))
    {
      SlicedPage(all, url, base, pageSize, page);
    }
  }

  /** Pages 1..n of a served list are its first n * pageSize records. */
  lemma {:induction false} ServedFetched<R>(http: Http<R>, url: string, base: Params, all: seq<R>, pageSize: nat, n: nat)
    requires Serves(http, url, base, all)
    ensures Fetched(http, url, base, pageSize, n) == all[..Min(n * pageSize, |all|)]
  {
    if n > 0 {
      var lo, hi := PageBounds(n, pageSize, |all|);
      ServedFetched(http, url, base, all, pageSize, n - 1);
      assert Fetched(http, url, base, pageSize, n - 1) == all[..lo];
      assert Page(http, url, base, pageSize, n) == Success(Slice(all, pageSize, n));
      assert Slice(all, pageSize, n) == all[lo..hi];
      assert Fetched(http, url, base, pageSize, n) == all[..lo] + all[lo..hi];
      PrefixSplit(all, lo, hi);
    }
  }

  /** Page `page` of a list is full exactly when it lies inside it. */
  lemma SlicePageFull<R>(all: seq<R>, pageSize: nat, page: nat)
    requires page >= 1
    ensures |Slice(all, pageSize, page)| >= pageSize <==> page * pageSize <= |all|
  {
    assert page * pageSize == (page - 1) * pageSize + pageSize;
  }

  /** Served in pages, an uncapped fetch makes |all| / 100 + 1 requests and
      returns exactly `all`. */
  lemma ServedUncapped<R>(http: Http<R>, url: string, base: Params, all: seq<R>)
    requires Serves(http, url, base, all)
    ensures Terminates(http, url, base, 0, |all| / PageSizeLimit + 1)
    ensures StopsAt(http, url, base, 0, |all| / PageSizeLimit + 1)
    ensures Outcome(http, url, base, 0, |all| / PageSizeLimit + 1) == Success(all)
  {
    var k := |all| / PageSizeLimit + 1;
    forall i | 1 <= i < k
      ensures Continues(http, url, base, 0, i)
    {
      assert Page(http, url, base, PageSizeLimit, i) == Success(Slice(all, PageSizeLimit, i));
      SlicePageFull(all, PageSizeLimit, i);
    }
    assert Page(http, url, base, PageSizeLimit, k) == Success(Slice(all, PageSizeLimit, k));
    SlicePageFull(all, PageSizeLimit, k);
    ServedFetched(http, url, base, all, PageSizeLimit, k);
    assert all[..|all|] == all;
  }

  /** Served in pages, a capped fetch makes at most |all| / pageSize + 1
      requests, fewer when the cap is met first. */
  lemma ServedCappedRequests<R>(http: Http<R>, url: string, base: Params, all: seq<R>, cap: nat, k: nat)
    requires Serves(http, url, base, all)
    requires cap > 0
    requires StopsAt(http, url, base, cap, k)
    ensures k <= |all| / PageSize(cap) + 1
  {
    var m := ServedLastPage(http, url, base, all, PageSize(cap));
    StopsNoLater(http, url, base, cap, k, m);
  }

  /** Page |all| / pageSize + 1 of a served list is short. */
  lemma ServedLastPage<R>(http: Http<R>, url: string, base: Params, all: seq<R>, pageSize: nat) returns (m: nat)
    requires Serves(http, url, base, all)
    requires pageSize >= 1
    ensures m == |all| / pageSize + 1
    ensures Page(http, url, base, pageSize, m).Success?
    ensures |Page(http, url, base, pageSize, m).value| < pageSize
  {
    m := |all| / pageSize + 1;
    assert Page(http, url, base, pageSize, m) == Success(Slice(all, pageSize, m));
    SlicePageFull(all, pageSize, m);
    PastTheEnd(|all|, pageSize);
  }

  /** Served in pages, a capped fetch returns the first min(cap, |all|) records. */
  lemma ServedCappedResult<R>(http: Http<R>, url: string, base: Params, all: seq<R>, cap: nat, k: nat)
    requires Serves(http, url, base, all)
    requires cap > 0
    requires StopsAt(http, url, base, cap, k)
    ensures Outcome(http, url, base, cap, k) == Success(all[..Min(cap, |all|)])
  {
    var ps := PageSize(cap);
    assert Page(http, url, base, ps, k) == Success(Slice(all, ps, k));
    SlicePageFull(all, ps, k);
    ServedFetched(http, url, base, all, ps, k);
    var m := Min(k * ps, |all|);
    assert Fetched(http, url, base, ps, k) == all[..m];
    if |Slice(all, ps, k)| < ps {
      assert m == |all|;
      assert all[..m] == all;
    } else {
      assert cap <= m;
      assert all[..m][..cap] == all[..cap];
    }
  }

  /** The bounds of page `n` (from 1) of a list of `len` records. */
  lemma PageBounds(n: nat, pageSize: nat, len: nat) returns (lo: nat, hi: nat)
    requires n >= 1
    ensures lo == Min((n - 1) * pageSize, len) && hi == Min(n * pageSize, len)
    ensures lo <= hi <= len
  {
    assert n * pageSize == (n - 1) * pageSize + pageSize;
    lo, hi := Min((n - 1) * pageSize, len), Min(n * pageSize, len);
  }

  lemma PrefixSplit<R>(all: seq<R>, lo: nat, hi: nat)
    requires lo <= hi <= |all|
    ensures all[..lo] + all[lo..hi] == all[..hi]
  {
  }

  /** Page n / ps + 1 ends past a list of n records. */
  lemma PastTheEnd(n: nat, ps: nat)
    requires ps >= 1
    ensures n < (n / ps + 1) * ps
  {
    var q := n / ps;
    assert n == q * ps + n % ps;
    assert (q + 1) * ps == q * ps + ps;
  }
}
