/** The Repository client of repo_analyzer/repo.py: paged GET requests against
    the GitHub REST API, assembled into one record list.

    The HTTP call is an oracle `Http<R>` from a URL and the query parameters to
    a response (status code, body text, decoded JSON array). Records are kept
    abstract (type parameter `R`): the client passes them through unread. */
module Repo {
  import opened Wrappers
  import opened Errors

  /** A value in a query-parameter dictionary. `PTime(t)` stands for the
      ISO-8601 text of timestamp `t` with a trailing "Z"; `PNone` is Python's
      None (which the HTTP library drops from the query string). */
  datatype ParamValue = PStr(s: string) | PInt(i: int) | PTime(t: int) | PNone

  type Params = map<string, ParamValue>

  datatype Response<R> = Response(status: int, text: string, body: seq<R>)

  /** A GET request: the URL and the parameters sent with it. */
  type Http<R> = (string, Params) -> Response<R>

  /** The largest page the API serves, and the default page size. */
  const PageSizeLimit: nat := 100

  const ApiRoot := "https://api.github.com/repos/"

  /** The client's configuration; never changed after construction. */
  datatype Repository = Repository(username: string, project: string, branch: string)
  {
    function BaseUrl(): string { ApiRoot + username + "/" + project }

    function Url(endpoint: string): string { BaseUrl() + "/" + endpoint }
  }

  /** A query-parameter dictionary that the client updates in place. */
  class ParamDict {
    var entries: Params

    constructor (entries: Params)
      ensures this.entries == entries
    {
      this.entries := entries;
    }

    /** Python's `dict.update`. */
    method Update(m: Params)
      modifies this
      ensures entries == old(entries) + m
    {
      entries := entries + m;
    }
  }

  /** One turn of the loop's request: write `page` into the dictionary and send it. */
  method Request<R>(dict: ParamDict, http: Http<R>, url: string, page: nat, ghost base: Params, ghost pageSize: nat)
    returns (r: Result<seq<R>, Error>)
    requires page >= 1
    requires dict.entries == Seeded(base, pageSize) || dict.entries == PageParams(base, pageSize, page - 1)
    modifies dict
    ensures dict.entries == PageParams(base, pageSize, page)
    ensures r == Page(http, url, base, pageSize, page)
  {
    if dict.entries != Seeded(base, pageSize) {
      Rewrite(Seeded(base, pageSize), PInt(page - 1), PInt(page));
    }
    dict.Update(map["page" := PInt(page)]);
    r := Query(http, url, dict.entries);
  }

  /** What the client starts from: the caller's dictionary, or nothing. */
  function Supplied(params: ParamDict?): Params
    reads params
  {
    if params != null then params.entries else map[]
  }

  /** One request: a non-200 status raises a RepositoryError carrying the body text. */
  function Query<R>(http: Http<R>, url: string, params: Params): (r: Result<seq<R>, Error>)
    ensures r.Failure? <==> http(url, params).status != 200
    ensures r.Success? ==> r.value == http(url, params).body
    ensures r.Failure? ==> r.error == RepositoryError("API request error: " + http(url, params).text)
  {
    var response := http(url, params);
    if response.status != 200 then Failure(RepositoryError("API request error: " + response.text))
    else Success(response.body)
  }

  /** The page size for a cap of `maxResults` (0 means no cap): the cap when it
      is below the limit, otherwise the limit. */
  function PageSize(maxResults: nat): (n: nat)
    ensures 1 <= n <= PageSizeLimit
    ensures maxResults > 0 ==> n <= maxResults
    ensures n == maxResults || n == PageSizeLimit
  {
    if maxResults > 0 && maxResults < PageSizeLimit then maxResults else PageSizeLimit
  }

  /** The caller's parameters with the page size written in. */
  function Seeded(base: Params, pageSize: nat): Params
  {
    base + map["per_page" := PInt(pageSize)]
  }

  /** The parameters of the request for page `page`. */
  function PageParams(base: Params, pageSize: nat, page: nat): Params
  {
    Seeded(base, pageSize) + map["page" := PInt(page)]
  }

  /** Writing `page` twice keeps only the second value. */
  lemma Rewrite(m: Params, a: ParamValue, b: ParamValue)
    ensures (m + map["page" := a]) + map["page" := b] == m + map["page" := b]
  {
  }

  /** Page `page` extends the records of the pages before it, and decides
      whether the loop goes on. */
  lemma PageStep<R>(http: Http<R>, url: string, base: Params, cap: nat, page: nat, data: seq<R>, dataPage: seq<R>)
    requires page >= 1
    requires data == Fetched(http, url, base, PageSize(cap), page - 1)
    requires Page(http, url, base, PageSize(cap), page) == Success(dataPage)
    ensures data + dataPage == Fetched(http, url, base, PageSize(cap), page)
    ensures Continues(http, url, base, cap, page) <==>
              !(|dataPage| < PageSize(cap) || (cap > 0 && |data + dataPage| >= cap))
    ensures Outcome(http, url, base, cap, page) == Success(Truncate(data + dataPage, cap))
  {
  }

  /** A failed page ends the loop with its error. */
  lemma PageFails<R>(http: Http<R>, url: string, base: Params, cap: nat, page: nat)
    requires Page(http, url, base, PageSize(cap), page).Failure?
    ensures !Continues(http, url, base, cap, page)
    ensures Outcome(http, url, base, cap, page) == Failure(Page(http, url, base, PageSize(cap), page).error)
  {
  }

  function Page<R>(http: Http<R>, url: string, base: Params, pageSize: nat, i: nat): Result<seq<R>, Error>
  {
    Query(http, url, PageParams(base, pageSize, i))
  }

  function Records<R>(r: Result<seq<R>, Error>): seq<R>
  {
    if r.Success? then r.value else []
  }

  /** The records of pages 1..n, concatenated in page order. */
  function Fetched<R>(http: Http<R>, url: string, base: Params, pageSize: nat, n: nat): seq<R>
  {
    if n == 0 then [] else Fetched(http, url, base, pageSize, n - 1) + Records(Page(http, url, base, pageSize, n))
  }

  /** After page `i` the loop goes on: the page came back, it was full, and a
      non-zero cap is not yet met by pages 1..i. */
  predicate Continues<R>(http: Http<R>, url: string, base: Params, cap: nat, i: nat)
  {
    var ps := PageSize(cap);
    var p := Page(http, url, base, ps, i);
    p.Success? && |p.value| >= ps && !(cap > 0 && |Fetched(http, url, base, ps, i)| >= cap)
  }

  /** Exactly pages 1..k are requested: every page before k lets the loop go
      on and page k does not. */
  predicate StopsAt<R>(http: Http<R>, url: string, base: Params, cap: nat, k: nat)
  {
    k >= 1 && !Continues(http, url, base, cap, k) && ContinuesBefore(http, url, base, cap, k)
  }

  /** Every page before page k let the loop go on. */
  predicate ContinuesBefore<R>(http: Http<R>, url: string, base: Params, cap: nat, k: nat)
  {
    forall i :: 1 <= i < k ==> Continues(http, url, base, cap, i)
  }

  lemma ContinuesBeforeNext<R>(http: Http<R>, url: string, base: Params, cap: nat, k: nat)
    requires ContinuesBefore(http, url, base, cap, k) && Continues(http, url, base, cap, k)
    ensures ContinuesBefore(http, url, base, cap, k + 1)
  {
  }

  /** Python's `data[:cap]` for a non-zero cap; no cap keeps everything. */
  function Truncate<R>(s: seq<R>, cap: nat): (t: seq<R>)
    ensures |t| == (if cap > 0 && cap < |s| then cap else |s|)
    ensures t == s[..|t|]
  {
    if cap > 0 && cap < |s| then s[..cap] else s
  }

  /** What a fetch whose last request is page k returns: the error of page k,
      or all fetched records cut to the cap. */
  function Outcome<R>(http: Http<R>, url: string, base: Params, cap: nat, k: nat): Result<seq<R>, Error>
  {
    var p := Page(http, url, base, PageSize(cap), k);
    if p.Failure? then Failure(p.error) else Success(Truncate(Fetched(http, url, base, PageSize(cap), k), cap))
  }

  /** The API contract the loop relies on to end: either a cap is set, or page
      `horizon` comes back short (or fails). */
  predicate Terminates<R>(http: Http<R>, url: string, base: Params, cap: nat, horizon: nat)
  {
    cap > 0 || (horizon >= 1 && !Continues(http, url, base, cap, horizon))
  }

  /** `Repository._get_all_pages`: request pages 1, 2, 3, ... with `per_page`
      and `page` written into the parameter dictionary, append each page, stop
      on a short page or a met cap, and cut the result to the cap. A
      non-empty caller dictionary is updated in place; an empty or absent one
      is replaced by a fresh dictionary. */
  method GetAllPages<R>(repo: Repository, http: Http<R>, endpoint: string, params: ParamDict?,
                        maxResults: nat, ghost horizon: nat)
    returns (res: Result<seq<R>, Error>, ghost requests: nat, ghost sent: seq<Params>)
    requires Terminates(http, repo.Url(endpoint), Supplied(params), maxResults, horizon)
    modifies params
    ensures StopsAt(http, repo.Url(endpoint), old(Supplied(params)), maxResults, requests)
    ensures |sent| == requests
    ensures forall i :: 0 <= i < requests ==> sent[i] == PageParams(old(Supplied(params)), PageSize(maxResults), i + 1)
    ensures res == Outcome(http, repo.Url(endpoint), old(Supplied(params)), maxResults, requests)
    ensures params != null && old(|params.entries|) > 0 ==>
              params.entries == PageParams(old(params.entries), PageSize(maxResults), requests)
    ensures params != null && old(|params.entries|) == 0 ==> params.entries == old(params.entries)
  {
    var url := repo.Url(endpoint);
    ghost var base := Supplied(params);
    var data: seq<R> := [];
    var pageSize := PageSize(maxResults);

    var dict: ParamDict;
    if params != null && |params.entries| > 0 {
      params.Update(map["per_page" := PInt(pageSize)]);
      dict := params;
    } else {
      dict := new ParamDict(map["per_page" := PInt(pageSize)]);
      assert dict.entries == Seeded(base, pageSize);
    }

    var page: nat := 1;
    sent := [];
    while true
      invariant page >= 1
      invariant |sent| == page - 1
      invariant forall i :: 0 <= i < page - 1 ==> sent[i] == PageParams(base, pageSize, i + 1)
      invariant params != null && old(|params.entries|) > 0 ==> dict == params
      invariant params != null && old(|params.entries|) == 0 ==> params.entries == old(params.entries)
      invariant dict == params || fresh(dict)
      invariant dict.entries == Seeded(base, pageSize) || dict.entries == PageParams(base, pageSize, page - 1)
      invariant data == Fetched(http, url, base, pageSize, page - 1)
      invariant ContinuesBefore(http, url, base, maxResults, page)
      invariant maxResults > 0 ==> |data| < maxResults
      invariant maxResults == 0 ==> page <= horizon
      decreases if maxResults > 0 then maxResults - |data| else horizon - page
    {
      var pageResult := Request(dict, http, url, page, base, pageSize);
      sent := sent + [dict.entries];
      if pageResult.Failure? {
        PageFails(http, url, base, maxResults, page);
        return Failure(pageResult.error), page, sent;
      }
      var dataPage := pageResult.value;
      PageStep(http, url, base, maxResults, page, data, dataPage);
      data := data + dataPage;

      if |dataPage| < pageSize || (maxResults > 0 && |data| >= maxResults) {
        requests := page;
        break;
      }

      ContinuesBeforeNext(http, url, base, maxResults, page);
      page := page + 1;
    }

    res := Success(Truncate(data, maxResults));
  }

  function CommitsParams(since: ParamValue, until: ParamValue): Params
  {
    map["since" := since, "until" := until]
  }

  function ContributorsParams(anon: bool): Params
  {
    map["anon" := PInt(if anon then 1 else 0)]
  }

  function PullsParams(state: string, branch: string, sortBy: string): Params
  {
    map["state" := PStr(state), "base" := PStr(branch), "sort" := PStr(sortBy)]
  }

  function IssuesParams(state: string, sortBy: string): Params
  {
    map["state" := PStr(state), "sort" := PStr(sortBy)]
  }

  /** Only pull requests are filtered by branch: `base` is the branch there
      and absent from the commit and issue queries. */
  lemma BranchFilter(since: ParamValue, until: ParamValue, state: string, branch: string, sortBy: string)
    ensures "base" !in CommitsParams(since, until)
    ensures PullsParams(state, branch, sortBy)["base"] == PStr(branch)
    ensures "base" !in IssuesParams(state, sortBy)
  {
  }

  /** `get_commits`: all commits in the window, on every branch (no `base`
      filter), with no cap. */
  method GetCommits<R>(repo: Repository, http: Http<R>, dateFrom: ParamValue, dateTo: ParamValue, ghost horizon: nat)
    returns (res: Result<seq<R>, Error>, ghost requests: nat)
    requires Terminates(http, repo.Url("commits"), CommitsParams(dateFrom, dateTo), 0, horizon)
    ensures StopsAt(http, repo.Url("commits"), CommitsParams(dateFrom, dateTo), 0, requests)
    ensures res == Outcome(http, repo.Url("commits"), CommitsParams(dateFrom, dateTo), 0, requests)
    ensures res.Failure? ==> res.error.RepositoryError?
  {
    var params := new ParamDict(CommitsParams(dateFrom, dateTo));
    ghost var sent;
    res, requests, sent := GetAllPages(repo, http, "commits", params, 0, horizon);
  }

  /** `Repository.get_contributors`: the only wrapper that sets a cap. */
  method GetContributors<R>(repo: Repository, http: Http<R>, count: nat, anon: bool, ghost horizon: nat)
    returns (res: Result<seq<R>, Error>, ghost requests: nat)
    requires Terminates(http, repo.Url("contributors"), ContributorsParams(anon), count, horizon)
    ensures StopsAt(http, repo.Url("contributors"), ContributorsParams(anon), count, requests)
    ensures res == Outcome(http, repo.Url("contributors"), ContributorsParams(anon), count, requests)
    ensures res.Failure? ==> res.error.RepositoryError?
    ensures res.Success? && count > 0 ==> |res.value| <= count
  {
    var params := new ParamDict(ContributorsParams(anon));
    ghost var sent;
    res, requests, sent := GetAllPages(repo, http, "contributors", params, count, horizon);
  }

  /** `get_pull_requests`: filtered by `base` = the configured branch, no cap. */
  method GetPullRequests<R>(repo: Repository, http: Http<R>, state: string, sortBy: string, ghost horizon: nat)
    returns (res: Result<seq<R>, Error>, ghost requests: nat)
    requires Terminates(http, repo.Url("pulls"), PullsParams(state, repo.branch, sortBy), 0, horizon)
    ensures StopsAt(http, repo.Url("pulls"), PullsParams(state, repo.branch, sortBy), 0, requests)
    ensures res == Outcome(http, repo.Url("pulls"), PullsParams(state, repo.branch, sortBy), 0, requests)
    ensures res.Failure? ==> res.error.RepositoryError?
  {
    var params := new ParamDict(PullsParams(state, repo.branch, sortBy));
    ghost var sent;
    res, requests, sent := GetAllPages(repo, http, "pulls", params, 0, horizon);
  }

  /** `get_issues`: no branch filter, no cap. */
  method GetIssues<R>(repo: Repository, http: Http<R>, state: string, sortBy: string, ghost horizon: nat)
    returns (res: Result<seq<R>, Error>, ghost requests: nat)
    requires Terminates(http, repo.Url("issues"), IssuesParams(state, sortBy), 0, horizon)
    ensures StopsAt(http, repo.Url("issues"), IssuesParams(state, sortBy), 0, requests)
    ensures res == Outcome(http, repo.Url("issues"), IssuesParams(state, sortBy), 0, requests)
    ensures res.Failure? ==> res.error.RepositoryError?
  {
    var params := new ParamDict(IssuesParams(state, sortBy));
    ghost var sent;
    res, requests, sent := GetAllPages(repo, http, "issues", params, 0, horizon);
  }
}
