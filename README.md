# repo_analyzer in Dafny

A model of the core of repo_analyzer, a command-line tool that reports on a
GitHub repository through the GitHub REST API:

- the top contributors, ranked by commit count within an optional date window;
- open, closed and stale pull requests into one branch (stale after 30 days);
- open, closed and stale issues (stale after 14 days).

The model has six modules:

- `Repo` (repo.dfy) models `Repository` in repo_analyzer/repo.py.
  - `GetAllPages` is an imperative loop over a mutable parameter dictionary:
    a `ParamDict` class whose `entries` map is rewritten in place.
  - The HTTP request is an oracle `Http<R>`: a function from the URL and the
    parameters to a status, a text and a list of records.
  - The method is proved against a page-by-page description. `StopsAt(k)`
    says pages 1..k-1 continued the fetch and page k ended it. `Outcome(k)`
    is the result after page k.
- `Pagination` (pagination.dfy) proves what the fetch promises, stated over
  that description.
  - It covers uncapped and capped results, one request for a small cap, and
    abort on the first failed request.
  - It proves the fetch ends on any server that serves a finite list page by
    page, with the exact number of requests.
- `StableSort` (stablesort.dfy) models the `list.sort(key=..., reverse=True)`
  call: a stable sort by count, largest first.
- `Analysis` (analyzer.dfy) models `Analyzer` in repo_analyzer/analyzer.py:
  - URL and date parsing, and the constructor;
  - the date window;
  - the `_summarize` loop;
  - the contributor ranking loop;
  - the three report operations.
- `Errors` and `Wrappers` hold the error kinds and the `Option`/`Result` types.

How external behaviour is modelled:

- Timestamps are integers (seconds).
- "Now" is a parameter.
- `datetime.strptime` is a parameter `strptime: (text, format) -> Option<timestamp>`. The two formats are `InputFormat` ("%Y-%m-%d") and `ApiFormat` ("%Y-%m-%dT%H:%M:%SZ").
- Termination depends on the server: with no cap, some page must come back
  short or fail. Each fetching method takes a ghost `horizon` for this. Its
  precondition `Terminates` says the fetch ends by page `horizon` (or that a
  cap is set). `Pagination.ServedUncapped` shows this holds for any server
  that serves a finite list, with `horizon = |all| / 100 + 1`.

## Model

| member | source | states |
|---|---|---|
| `Repo.Query` | repo_analyzer/repo.py:60-67 | A response fails exactly when its status is not 200, with the error "API request error: " followed by the response text; otherwise the records are the body. |
| `Repo.PageSize` | repo_analyzer/repo.py:80-83 | The page size is between 1 and 100. It equals the cap when the cap is below 100, and 100 otherwise (including no cap). It never exceeds a non-zero cap. |
| `Repo.Truncate` | repo_analyzer/repo.py:104-106 | The result is the first min(cap, n) records when a cap is set, and all n records otherwise; it is a prefix of its input. |
| `Repo.ParamDict.Update` | repo_analyzer/repo.py:86-93 | `dict.update` in place: the new entries are the old ones overridden by the given keys. |
| `Repo.Request` | repo_analyzer/repo.py:93-94 | The dictionary goes from the seeded or previous-page parameters to those of page `page`. The answer is that page's `Query` result. |
| `Repo.PageStep` | repo_analyzer/repo.py:95-100 | After a successful page the records so far are pages 1..page. The loop goes on exactly when the page is full and a set cap is not yet met. The result at that page is the truncated record list. |
| `Repo.PageFails` | repo_analyzer/repo.py:64-65 | A failed page ends the fetch, and the outcome is that page's error. |
| `Repo.GetAllPages` | repo_analyzer/repo.py:69-106 | The ghost `sent` lists the dictionary of each request. Its length is the number of requests, fixed by `StopsAt`. Request i (from 1) sends the caller's entries plus `per_page` = the page size and `page` = i, so pages go 1, 2, 3, … with none skipped. The result is `Outcome`: either the truncated concatenation of the pages, or the error of the first failed page. The caller's non-empty dictionary ends holding its own entries plus `per_page` and the last `page`. An empty one is replaced by a fresh dictionary and left unchanged. |
| `Repo.GetCommits` | repo_analyzer/repo.py:108-117 | Commits are fetched uncapped with `since` and `until`. A failure is a RepositoryError. |
| `Repo.GetContributors` | repo_analyzer/repo.py:119-134 | Contributors are fetched with `anon` as 0 or 1, capped at `count`; this is the only wrapper that sets a cap. A non-zero cap bounds the result length, and a failure is a RepositoryError. |
| `Repo.GetPullRequests` | repo_analyzer/repo.py:136-147 | Pull requests are fetched uncapped with `state`, `sort` and `base`. A failure is a RepositoryError. |
| `Repo.GetIssues` | repo_analyzer/repo.py:149-159 | Issues are fetched uncapped with `state` and `sort`. A failure is a RepositoryError. |
| `Repo.BranchFilter` | repo_analyzer/repo.py:108-159 | Only the pull-request query filters by branch: its `base` is the configured branch. The commit and issue queries have no `base` key. |
| `Pagination.StopsAtUnique` | repo_analyzer/repo.py:92-102 | The number of requests is fixed by the responses. |
| `Pagination.StopsNoLater` | repo_analyzer/repo.py:97-100 | No fetch goes past the first short page. |
| `Pagination.SmallCapSingleRequest` | repo_analyzer/repo.py:80-100 | With 0 < cap <= 100, exactly one request is made. |
| `Pagination.UncappedResult` | repo_analyzer/repo.py:92-106 | With no cap, every page before the last was a full page of 100 and the last one was short. The result is all their records in page order. |
| `Pagination.CappedResult` | repo_analyzer/repo.py:95-105 | With a cap, the cap was not met before the last page, which was short or met it. The result is the first min(cap, n) of the n records fetched. |
| `Pagination.FailureAborts` | repo_analyzer/repo.py:60-67 | A failed fetch returns no records. Its last request had a status other than 200, every earlier one had 200, and the error carries the last response's text. |
| `Pagination.SlicedServes` | repo_analyzer/repo.py:86-93 | A server that answers `per_page` and `page` with that slice of a finite list exists. |
| `Pagination.ServedFetched` | repo_analyzer/repo.py:92-95 | From such a server, pages 1..n are the first n * page size records. |
| `Pagination.ServedUncapped` | repo_analyzer/repo.py:92-106 | From such a server, an uncapped fetch ends after \|all\| / 100 + 1 requests and returns the whole list. |
| `Pagination.ServedCappedRequests` | repo_analyzer/repo.py:97-102 | From such a server, a capped fetch makes at most \|all\| / page size + 1 requests. |
| `Pagination.ServedLastPage` | repo_analyzer/repo.py:97 | Page \|all\| / page size + 1 of a served list is short. |
| `Pagination.ServedCappedResult` | repo_analyzer/repo.py:104-105 | From such a server, a capped fetch returns the first min(cap, \|all\|) records. |
| `StableSort.SortDesc` | repo_analyzer/analyzer.py:144-145 | The result is sorted by count, largest first, and is a permutation of the input. For every count, the entries with that count keep their input order (stability). The counts' total is unchanged. |
| `StableSort.InsertSorted` | repo_analyzer/analyzer.py:145 | Inserting after every entry with a count at least as large keeps the list sorted. |
| `StableSort.InsertWithCount` | repo_analyzer/analyzer.py:145 | The inserted entry comes after every earlier entry with the same count. |
| `Analysis.ParseTime` | repo_analyzer/analyzer.py:49-64 | Missing or empty text is no date. The format is "%Y-%m-%d" for the source "input" and the API format for any other source. A text the format rejects fails with "Incorrect date format", and otherwise the parsed date is returned. |
| `Analysis.FilterByDate` | repo_analyzer/analyzer.py:79-87 | A date passes exactly when it is at or after the lower bound (if set) and at or before the upper bound (if set). |
| `Analysis.RunEnd` | repo_analyzer/analyzer.py:45 | A greedy character class run: every character up to the end is outside the stop set, and the run stops at a stop character or the end of the text. |
| `Analysis.MatchAtComplete` | repo_analyzer/analyzer.py:45 | Wherever the pattern `github\.com/([^/]+)/([^/?]+)` fits (host case-insensitive, greedy groups), the matcher finds exactly that owner and project. |
| `Analysis.MatchAtSound` | repo_analyzer/analyzer.py:45 | What the matcher finds at a position fits the pattern there. |
| `Analysis.ParseUrl` | repo_analyzer/analyzer.py:37-47 | A failure is always "Incorrect repository URL". |
| `Analysis.ParseUrlFirstMatch` | repo_analyzer/analyzer.py:45 | The owner and project of the leftmost position where the pattern fits are the result. |
| `Analysis.ParseUrlSound` | repo_analyzer/analyzer.py:45 | A result fits the pattern at some position, and nothing fits before it. |
| `Analysis.ParseUrlFails` | repo_analyzer/analyzer.py:44-47 | Parsing fails exactly when the pattern fits nowhere in the URL. |
| `Analysis.ParseUrlOfParts` | repo_analyzer/analyzer.py:45 | A URL like "https://" + "github.com/" + owner + "/" + project + tail gives (owner, project), where the tail starts with '/' or '?' or is empty. |
| `Analysis.ParseUrlOtherHost` | repo_analyzer/analyzer.py:44-47 | "https://example.com/a/b" is refused with "Incorrect repository URL". |
| `Analysis.NewAnalyzer` | repo_analyzer/analyzer.py:26-35 | Construction succeeds exactly when both dates and the URL parse. A bad `date_from` is reported first, then a bad `date_to`, both as "Incorrect date format". A bad URL after good dates is "Incorrect repository URL". The built value holds the window, the owner and project of the URL, and the branch. |
| `Analysis.SummarizedCounts` | repo_analyzer/analyzer.py:97-118 | A computed summary counts the open, closed (any other state) and stale (open and created before the deadline) records in the window. Open plus closed is the number of records in the window, and stale is at most open. |
| `Analysis.SummarizedFails` | repo_analyzer/analyzer.py:103-116 | The summary fails exactly when some record raises: a creation date the format rejects, or a missing date reaching a comparison. |
| `Analysis.PrefixFailure` | repo_analyzer/analyzer.py:103-116 | An error on a prefix of the records ends the whole pass with that error. |
| `Analysis.SummarizedFirstError` | repo_analyzer/analyzer.py:103-116 | The error raised is that of the first record that raises one. |
| `Analysis.AppendOutside` | repo_analyzer/analyzer.py:105-108 | A dated record outside the window leaves the summary unchanged. |
| `Analysis.AppendOpen` | repo_analyzer/analyzer.py:105-114 | An open record in the window adds one to open, and one to stale when created before the deadline. |
| `Analysis.AppendClosed` | repo_analyzer/analyzer.py:105-116 | A record in the window in any state other than "open" adds one to closed and nothing to stale. |
| `Analysis.SummarizedErrors` | repo_analyzer/analyzer.py:103-116 | The only errors the pass raises are "Incorrect date format" and the comparison of a missing date. |
| `Analysis.Summarize` | repo_analyzer/analyzer.py:89-118 | The loop returns the summary, or the first error, that `Summarized` describes for the records, the window and now − stale days. |
| `Analysis.Top` | repo_analyzer/analyzer.py:147-148 | Python's `s[:n]` for non-zero n: the first n entries (all if fewer), or all but the last \|n\| for negative n. A zero count keeps everything. |
| `Analysis.LoginsMembership` | repo_analyzer/analyzer.py:135-141 | A login is listed exactly when it authored at least one commit. |
| `Analysis.LoginsDistinct` | repo_analyzer/analyzer.py:133-141 | No login is listed twice. |
| `Analysis.LoginsFirstAppearance` | repo_analyzer/analyzer.py:133-141 | Logins are listed in the order of their first commit (the insertion order of the dictionary): the logins of any prefix of the commits begin the full list. |
| `Analysis.EntriesTotal` | repo_analyzer/analyzer.py:135-144 | The counts sum to the number of commits that have an author. |
| `Analysis.RankingCorrect` | repo_analyzer/analyzer.py:133-145 | The ranking has one entry per login with at least one commit, carrying its commit count, and no login twice. Counts sum to the number of authored commits. Entries are sorted by count, largest first, and equal counts keep first-commit order. |
| `Analysis.RankContributors` | repo_analyzer/analyzer.py:133-149 | The counting loop, the sort and the slice give the first `count` entries of the ranking, or all of it when `count` is 0. |
| `Analysis.GetContributors` | repo_analyzer/analyzer.py:120-149 | Commits of the window are fetched uncapped, and the result is their ranking cut to `count`. It is sorted by count (largest first) and no longer than a positive `count`. A failed request is passed on as a RepositoryError. |
| `Analysis.GetPullRequestsStat` | repo_analyzer/analyzer.py:151-159 | All pull requests into the branch, sorted by creation, are fetched and summarised with a 30-day deadline, so stale is at most open. Errors are the failed request's RepositoryError or one raised by the summary. |
| `Analysis.GetIssuesStat` | repo_analyzer/analyzer.py:161-166 | All issues, sorted by creation, are fetched and summarised with a 14-day deadline, so stale is at most open. Errors are the failed request's RepositoryError or one raised by the summary. |

## Left out

- HTTP transport, headers, authentication and JSON decoding are abstracted into the `Http<R>` oracle. Records arrive already decoded.
- The module-level credential check (analyzer.py:13-19) is left out: it reads environment variables. So are `parse_args` and cli.py.
- `pprint_contributors`, `just` and `main` are left out: they format and print output.
- The `State` and `Sorting` classes appear only as the literal strings "all", "open" and "created".
- `datetime.now()` is a parameter `now`. `strptime` is a parameter. `isoformat() + "Z"` is an abstract timestamp parameter (`PTime`). Timezones are not modelled: the source compares a local "now" with UTC creation times, and the model compares plain integers.
- `Repo.GetAllPages`: termination needs the `Terminates` precondition (a cap, or a page by `horizon` that ends the fetch). The Python loop has no such bound and would run forever against a server that always returns full pages.
- `Repo.GetAllPages`: `max_results` is a `nat`. A negative value would make Python request a negative page size; that case is not modelled.
- `Repo.GetAllPages`: a `None` parameter value (for example `since=None`) is passed to the oracle as `PNone`. How `requests` drops such parameters is the oracle's concern.
- `Analysis.ParseUrl`: case folding of "github.com/" is ASCII-only. Python's `re.I` on Unicode text could also match a few non-ASCII characters.
- `Analysis.ParseTime`: the meaning of the formats (which texts each accepts, and the value) lies in `strptime`.
- `StableSort.SortDesc`: Python sorts the list in place; the model sorts a `seq` functionally.
- repo_analyzer/errors.py is not part of this model. `AnalyzerError` is known only by its uses. Python's `TypeError` from comparing `None` with a datetime is the model's `NoneComparison`.
