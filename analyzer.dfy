/** The Analyzer of repo_analyzer/analyzer.py: repository identity and date
    parsing, the date window, the open/closed/stale summary of pull requests
    and issues, and the contributor ranking built from commits.

    Timestamps are integers (seconds); "now" is a parameter; `strptime` is an
    injected parser from a text and a format to a timestamp, or None where
    the text does not fit the format. */
module Analysis {
  import opened Wrappers
  import opened Errors
  import Repo
  import StableSort

  const StalePullRequestsDays: nat := 30
  const StaleIssuesDays: nat := 14
  const SecondsPerDay: nat := 86400

  /** A commit as the analyzer reads it: the login of its linked GitHub
      account, or None when the API reports no author. */
  datatype Commit = Commit(author: Option<string>)

  /** A pull request or an issue: its creation time as the API writes it, and its state. */
  datatype Item = Item(createdAt: string, state: string)

  /** The optional inclusive bounds on creation time. */
  datatype Window = Window(from: Option<int>, to: Option<int>)

  datatype Summary = Summary(open: nat, closed: nat, stale: nat)

  /** "%Y-%m-%d" for command-line input, "%Y-%m-%dT%H:%M:%SZ" for API text. */
  datatype Format = InputFormat | ApiFormat

  type Strptime = (string, Format) -> Option<int>

  /** The configuration fixed when an Analyzer is built. */
  datatype Analyzer = Analyzer(repoUrl: string, window: Window, owner: string, project: string, branch: string)
  {
    function Repository(): Repo.Repository { Repo.Repository(owner, project, branch) }
  }

  // ---------------------------------------------------------------- dates

  function FormatFor(source: string): Format
  {
    if source == "input" then InputFormat else ApiFormat
  }

  /** `_parse_time`: no text or empty text is no date; otherwise the text must
      fit the format of its source. */
  function ParseTime(text: Option<string>, source: string, strptime: Strptime): (r: Result<Option<int>, Error>)
    ensures (text == None || text == Some("")) ==> r == Success(None)
    ensures r.Failure? <==> text.Some? && text.value != "" && strptime(text.value, FormatFor(source)).None?
    ensures r.Failure? ==> r.error == AnalyzerError("Incorrect date format")
    ensures r.Success? && r.value.Some? ==> text.Some? && strptime(text.value, FormatFor(source)) == r.value
    ensures text.Some? && text.value != "" && strptime(text.value, FormatFor(source)).Some? ==>
              r == Success(strptime(text.value, FormatFor(source)))
  {
    if text == None || text.value == "" then Success(None)
    else match strptime(text.value, FormatFor(source))
      case None => Failure(AnalyzerError("Incorrect date format"))
      case Some(t) => Success(Some(t))
  }

  /** `__filter_by_date`: the date falls within the window. */
  function FilterByDate(w: Window, date: int): (inside: bool)
    ensures inside <==> (w.from.None? || date >= w.from.value) && (w.to.None? || date <= w.to.value)
  {
    !((w.from.Some? && date < w.from.value) || (w.to.Some? && date > w.to.value))
  }

  // ---------------------------------------------------------- repository URL

  const Host := "github.com/"
  const OwnerStops: set<char> := {'/'}
  const ProjectStops: set<char> := {'/', '?'}

  /** ASCII case folding, as a case-insensitive match of "github.com/" uses it. */
  function Lower(c: char): char
  {
    if 'A' <= c <= 'Z' then (c as int + 32) as char else c
  }

  /** `s` holds "github.com/" at position `p`, ignoring case. */
  predicate HostAt(s: string, p: nat)
  {
    p + |Host| <= |s| && forall j :: 0 <= j < |Host| ==> Lower(s[p + j]) == Host[j]
  }

  /** The end of the longest run from `i` of characters outside `stops`. */
  function RunEnd(s: string, i: nat, stops: set<char>): (e: nat)
    requires i <= |s|
    ensures i <= e <= |s|
    ensures forall j :: i <= j < e ==> s[j] !in stops
    ensures e == |s| || s[e] in stops
    decreases |s| - i
  {
    if i == |s| || s[i] in stops then i else RunEnd(s, i + 1, stops)
  }

  /** The pattern `github\.com/([^/]+)/([^/?]+)`, case-insensitive, tried at
      position `p`: greedy runs, so the owner runs to the next '/' and the
      project to the next '/', '?' or the end. */
  function MatchAt(s: string, p: nat): Option<(string, string)>
  {
    if !HostAt(s, p) then None
    else
      var o0 := p + |Host|;
      var o1 := RunEnd(s, o0, OwnerStops);
      if o1 == o0 || o1 == |s| then None
      else
        var q1 := RunEnd(s, o1 + 1, ProjectStops);
        if q1 == o1 + 1 then None else Some((s[o0..o1], s[o1 + 1..q1]))
  }

  /** The matcher as a function of the position. */
  function Matcher(s: string): nat -> Option<(string, string)>
  {
    (p: nat) => MatchAt(s, p)
  }

  /** A leftmost search: what `f` finds at the first position from `p` on,
      positions beyond `n` finding nothing. */
  function FirstFrom<T>(f: nat -> Option<T>, n: nat, p: nat): Option<T>
    decreases n - p
  {
    if f(p).Some? then f(p) else if p >= n then None else FirstFrom(f, n, p + 1)
  }

  /** What the pattern means at position `p`: the host, a non-empty owner
      without '/', a '/', a non-empty project without '/' or '?', and nothing
      the project could be extended by. */
  predicate IsMatch(s: string, p: nat, owner: string, project: string)
  {
    var o0 := p + |Host|;
    var o1 := o0 + |owner|;
    var q1 := o1 + 1 + |project|;
    && HostAt(s, p)
    && |owner| > 0 && |project| > 0
    && q1 <= |s|
    && s[o0..o1] == owner && s[o1] == '/' && s[o1 + 1..q1] == project
    && (forall j :: 0 <= j < |owner| ==> owner[j] !in OwnerStops)
    && (forall j :: 0 <= j < |project| ==> project[j] !in ProjectStops)
    && (q1 == |s| || s[q1] in ProjectStops)
  }

  /** `_parse_url`: the owner and project of the first match. */
  function ParseUrl(repoUrl: string): (r: Result<(string, string), Error>)
    ensures r.Failure? ==> r.error == AnalyzerError("Incorrect repository URL")
  {
    match FirstFrom(Matcher(repoUrl), |repoUrl|, 0)
    case Some(m) => Success(m)
    case None => Failure(AnalyzerError("Incorrect repository URL"))
  }

  /** A run that ends at a stop character (or the end) is the longest one. */
  lemma {:induction false} RunEndUnique(s: string, i: nat, stops: set<char>, e: nat)
    requires i <= e <= |s|
    requires forall j :: i <= j < e ==> s[j] !in stops
    requires e == |s| || s[e] in stops
    ensures RunEnd(s, i, stops) == e
    decreases e - i
  {
    if i < e {
      assert s[i] !in stops;
      RunEndUnique(s, i + 1, stops, e);
    }
  }

  /** Where the pattern fits, the matcher finds exactly that owner and project. */
  lemma MatchAtComplete(s: string, p: nat, owner: string, project: string)
    requires IsMatch(s, p, owner, project)
    ensures MatchAt(s, p) == Some((owner, project))
  {
    var o0 := p + |Host|;
    var o1 := o0 + |owner|;
    var q1 := o1 + 1 + |project|;
    forall j | o0 <= j < o1 ensures s[j] !in OwnerStops {
      assert s[j] == owner[j - o0];
    }
    RunEndUnique(s, o0, OwnerStops, o1);
    forall j | o1 + 1 <= j < q1 ensures s[j] !in ProjectStops {
      assert s[j] == project[j - o1 - 1];
    }
    RunEndUnique(s, o1 + 1, ProjectStops, q1);
  }

  /** What the matcher finds fits the pattern. */
  lemma MatchAtSound(s: string, p: nat)
    requires MatchAt(s, p).Some?
    ensures IsMatch(s, p, MatchAt(s, p).value.0, MatchAt(s, p).value.1)
  {
    var o0 := p + |Host|;
    var o1 := RunEnd(s, o0, OwnerStops);
    var q1 := RunEnd(s, o1 + 1, ProjectStops);
    var owner, project := s[o0..o1], s[o1 + 1..q1];
    assert MatchAt(s, p).value == (owner, project);
    forall j | 0 <= j < |owner| ensures owner[j] !in OwnerStops {
      assert owner[j] == s[o0 + j];
    }
    forall j | 0 <= j < |project| ensures project[j] !in ProjectStops {
      assert project[j] == s[o1 + 1 + j];
    }
  }

  /** Nothing fits the pattern at `p`. */
  ghost predicate Unmatched(s: string, p: nat)
  {
    forall owner, project :: !IsMatch(s, p, owner, project)
  }

  lemma NoMatchAt(s: string, p: nat)
    requires MatchAt(s, p) == None
    ensures Unmatched(s, p)
  {
    forall owner, project ensures !IsMatch(s, p, owner, project) {
      if IsMatch(s, p, owner, project) {
        MatchAtComplete(s, p, owner, project);
      }
    }
  }

  /** `f` finds nothing at positions `p` up to `q`, excluded. */
  predicate NoneBetween<T>(f: nat -> Option<T>, p: nat, q: nat)
  {
    forall i: nat :: p <= i < q ==> f(i).None?
  }

  lemma {:induction false} FirstFromFirst<T>(f: nat -> Option<T>, n: nat, p: nat, q: nat)
    requires p <= q <= n && f(q).Some? && NoneBetween(f, p, q)
    ensures FirstFrom(f, n, p) == f(q)
    decreases q - p
  {
    if p < q {
      assert f(p).None?;
      FirstFromFirst(f, n, p + 1, q);
    }
  }

  lemma {:induction false} FirstFromFound<T>(f: nat -> Option<T>, n: nat, p: nat) returns (q: nat)
    requires p <= n && FirstFrom(f, n, p).Some?
    ensures p <= q <= n && f(q) == FirstFrom(f, n, p) && NoneBetween(f, p, q)
    decreases n - p
  {
    if f(p).Some? {
      q := p;
    } else {
      q := FirstFromFound(f, n, p + 1);
    }
  }

  lemma {:induction false} FirstFromMissing<T>(f: nat -> Option<T>, n: nat, p: nat)
    requires p <= n && FirstFrom(f, n, p).None?
    ensures NoneBetween(f, p, n + 1)
    decreases n - p
  {
    if p < n {
      FirstFromMissing(f, n, p + 1);
    }
  }

  /** The first position that fits the pattern gives the result. */
  lemma ParseUrlFirstMatch(repoUrl: string, p: nat, owner: string, project: string)
    requires IsMatch(repoUrl, p, owner, project)
    requires forall i: nat, o, q :: i < p ==> !IsMatch(repoUrl, i, o, q)
    ensures ParseUrl(repoUrl) == Success((owner, project))
  {
    MatchAtComplete(repoUrl, p, owner, project);
    forall i: nat | i < p ensures Matcher(repoUrl)(i).None? {
      if MatchAt(repoUrl, i).Some? {
        MatchAtSound(repoUrl, i);
      }
    }
    FirstFromFirst(Matcher(repoUrl), |repoUrl|, 0, p);
  }

  /** A result of `ParseUrl` fits the pattern at some position, and nothing
      fits before it. */
  lemma ParseUrlSound(repoUrl: string) returns (p: nat)
    requires ParseUrl(repoUrl).Success?
    ensures IsMatch(repoUrl, p, ParseUrl(repoUrl).value.0, ParseUrl(repoUrl).value.1)
    ensures forall i: nat, o, q :: i < p ==> !IsMatch(repoUrl, i, o, q)
  {
    p := FirstFromFound(Matcher(repoUrl), |repoUrl|, 0);
    MatchAtSound(repoUrl, p);
    forall i: nat, o, q | i < p ensures !IsMatch(repoUrl, i, o, q) {
      assert Matcher(repoUrl)(i).None?;
      NoMatchAt(repoUrl, i);
    }
  }

  /** `ParseUrl` fails exactly when the pattern fits nowhere. */
  lemma ParseUrlFails(repoUrl: string)
    ensures ParseUrl(repoUrl).Failure? <==> forall p: nat, o, q :: !IsMatch(repoUrl, p, o, q)
  {
    if ParseUrl(repoUrl).Failure? {
      FirstFromMissing(Matcher(repoUrl), |repoUrl|, 0);
      forall p: nat, o, q ensures !IsMatch(repoUrl, p, o, q) {
        if p <= |repoUrl| {
          assert Matcher(repoUrl)(p).None?;
        }
        NoMatchAt(repoUrl, p);
      }
    } else {
      var k := FirstFromFound(Matcher(repoUrl), |repoUrl|, 0);
      MatchAtSound(repoUrl, k);
    }
  }

  /** A URL made of a prefix without 'g', the host, an owner, '/', a project
      and a tail that starts at a stop character yields that owner and project. */
  lemma ParseUrlOfParts(prefix: string, owner: string, project: string, tail: string)
    requires forall j :: 0 <= j < |prefix| ==> Lower(prefix[j]) != 'g'
    requires |owner| > 0 && forall j :: 0 <= j < |owner| ==> owner[j] !in OwnerStops
    requires |project| > 0 && forall j :: 0 <= j < |project| ==> project[j] !in ProjectStops
    requires |tail| == 0 || tail[0] in ProjectStops
    ensures ParseUrl(prefix + Host + owner + "/" + project + tail) == Success((owner, project))
  {
    var url := prefix + Host + owner + "/" + project + tail;
    var o0 := |prefix| + |Host|;
    var o1 := o0 + |owner|;
    var q1 := o1 + 1 + |project|;
    SliceOfConcat(prefix + Host, owner, "/" + project + tail);
    assert prefix + Host + owner + ("/" + project + tail) == url;
    SliceOfConcat(prefix + Host + owner + "/", project, tail);
    assert HostAt(url, |prefix|) by {
      forall j | 0 <= j < |Host| ensures Lower(url[|prefix| + j]) == Host[j] {
        assert url[|prefix| + j] == Host[j];
      }
    }
    assert url[o1] == '/';
    assert q1 < |url| ==> url[q1] == tail[0];
    forall i: nat, o, q | i < |prefix| ensures !IsMatch(url, i, o, q) {
      assert url[i + 0] == prefix[i] && Lower(prefix[i]) != Host[0];
    }
    ParseUrlFirstMatch(url, |prefix|, owner, project);
  }

  lemma SliceOfConcat<T>(a: seq<T>, b: seq<T>, c: seq<T>)
    ensures (a + b + c)[|a|..|a| + |b|] == b
  {
  }

  /** A URL on another host is refused. */
  lemma ParseUrlOtherHost()
    ensures ParseUrl("https://example.com/a/b") == Failure(AnalyzerError("Incorrect repository URL"))
  {
    var url := "https://example.com/a/b";
    forall p: nat, o, q ensures !IsMatch(url, p, o, q) {
      if p < |url| {
        assert Lower(url[p]) != Host[0];
      }
    }
    ParseUrlFails(url);
  }

  // ------------------------------------------------------------ construction

  /** `Analyzer.__init__`: parse the two dates, then the URL; the first
      failure is raised. */
  function NewAnalyzer(repoUrl: string, branch: string, dateFrom: Option<string>, dateTo: Option<string>,
                       strptime: Strptime): (r: Result<Analyzer, Error>)
    ensures r.Success? <==>
              ParseTime(dateFrom, "input", strptime).Success? && ParseTime(dateTo, "input", strptime).Success?
              && ParseUrl(repoUrl).Success?
    ensures ParseTime(dateFrom, "input", strptime).Failure? ==> r == Failure(AnalyzerError("Incorrect date format"))
    ensures ParseTime(dateFrom, "input", strptime).Success? && ParseTime(dateTo, "input", strptime).Failure? ==>
              r == Failure(AnalyzerError("Incorrect date format"))
    ensures (ParseTime(dateFrom, "input", strptime).Success? && ParseTime(dateTo, "input", strptime).Success?
             && ParseUrl(repoUrl).Failure?) ==> r == Failure(AnalyzerError("Incorrect repository URL"))
    ensures r.Success? ==>
              && r.value.window == Window(ParseTime(dateFrom, "input", strptime).value, ParseTime(dateTo, "input", strptime).value)
              && (r.value.owner, r.value.project) == ParseUrl(repoUrl).value
              && r.value.branch == branch && r.value.repoUrl == repoUrl
  {
    match ParseTime(dateFrom, "input", strptime)
    case Failure(e) => Failure(e)
    case Success(from) =>
      match ParseTime(dateTo, "input", strptime)
      case Failure(e) => Failure(e)
      case Success(to) =>
        match ParseUrl(repoUrl)
        case Failure(e) => Failure(e)
        case Success(id) => Success(Analyzer(repoUrl, Window(from, to), id.0, id.1, branch))
  }

  // --------------------------------------------------------------- summaries

  /** The date `_summarize` reads from a record, in the API's format. */
  function CreatedAt(x: Item, strptime: Strptime): Result<Option<int>, Error>
  {
    ParseTime(Some(x.createdAt), "api", strptime)
  }

  /** `now` minus `staleDays` days. */
  function Deadline(now: int, staleDays: nat): int
  {
    now - staleDays * SecondsPerDay
  }

  /** What a dated record adds to the summary. */
  function Contribution(date: int, state: string, w: Window, deadline: int): Summary
  {
    if !FilterByDate(w, date) then Summary(0, 0, 0)
    else if state == "open" then Summary(1, 0, if date < deadline then 1 else 0)
    else Summary(0, 1, 0)
  }

  /** One record's effect on the summary, or the error it raises. A record
      without a date meets a comparison with None when a bound is set, and
      again at the deadline when it is open. */
  function Step(x: Item, w: Window, deadline: int, strptime: Strptime): Result<Summary, Error>
  {
    match CreatedAt(x, strptime)
    case Failure(e) => Failure(e)
    case Success(None) =>
      if w.from.Some? || w.to.Some? || x.state == "open" then Failure(NoneComparison) else Success(Summary(0, 1, 0))
    case Success(Some(date)) => Success(Contribution(date, x.state, w, deadline))
  }

  function Plus(a: Summary, b: Summary): Summary
  {
    Summary(a.open + b.open, a.closed + b.closed, a.stale + b.stale)
  }

  /** The result of `_summarize`: the records are taken in order and the
      first error ends the pass. */
  function Summarized(items: seq<Item>, w: Window, deadline: int, strptime: Strptime): Result<Summary, Error>
  {
    if |items| == 0 then Success(Summary(0, 0, 0))
    else
      match Summarized(items[..|items| - 1], w, deadline, strptime)
      case Failure(e) => Failure(e)
      case Success(s) =>
        match Step(items[|items| - 1], w, deadline, strptime)
        case Failure(e) => Failure(e)
        case Success(c) => Success(Plus(s, c))
  }

  /** The counters of `_summarize`; `Counted` is every record the window admits. */
  datatype Bucket = Counted | Open | Closed | Stale

  /** The date of a record, when it has one that parses. */
  function DateOf(x: Item, strptime: Strptime): Option<int>
  {
    match CreatedAt(x, strptime)
    case Success(d) => d
    case Failure(_) => None
  }

  /** The window admits the record; a record without a date only when no
      bound is set. */
  predicate Admitted(x: Item, w: Window, strptime: Strptime)
  {
    match CreatedAt(x, strptime)
    case Success(Some(date)) => FilterByDate(w, date)
    case Success(None) => w.from.None? && w.to.None?
    case Failure(_) => false
  }

  predicate InBucket(b: Bucket, x: Item, w: Window, deadline: int, strptime: Strptime)
  {
    && Admitted(x, w, strptime)
    && match b
       case Counted => true
       case Open => x.state == "open"
       case Closed => x.state != "open"
       case Stale => x.state == "open" && DateOf(x, strptime).Some? && DateOf(x, strptime).value < deadline
  }

  /** The number of records of `items` in bucket `b`. */
  function Count(items: seq<Item>, b: Bucket, w: Window, deadline: int, strptime: Strptime): nat
  {
    if |items| == 0 then 0
    else Count(items[..|items| - 1], b, w, deadline, strptime)
         + (if InBucket(b, items[|items| - 1], w, deadline, strptime) then 1 else 0)
  }

  /** A summary that is computed counts each bucket; so opened plus closed
      is the number of records in the window, and stale ones are open. */
  lemma {:induction false} SummarizedCounts(items: seq<Item>, w: Window, deadline: int, strptime: Strptime)
    requires Summarized(items, w, deadline, strptime).Success?
    ensures var s := Summarized(items, w, deadline, strptime).value;
            && s == Summary(Count(items, Open, w, deadline, strptime), Count(items, Closed, w, deadline, strptime),
                            Count(items, Stale, w, deadline, strptime))
            && s.open + s.closed == Count(items, Counted, w, deadline, strptime)
            && s.stale <= s.open
  {
    if |items| > 0 {
      SummarizedCounts(items[..|items| - 1], w, deadline, strptime);
    }
  }

  /** The pass fails exactly when some record raises an error. */
  lemma {:induction false} SummarizedFails(items: seq<Item>, w: Window, deadline: int, strptime: Strptime)
    ensures Summarized(items, w, deadline, strptime).Failure?
            <==> exists i :: 0 <= i < |items| && Step(items[i], w, deadline, strptime).Failure?
  {
    if |items| > 0 {
      var init := items[..|items| - 1];
      SummarizedFails(init, w, deadline, strptime);
      if exists i :: 0 <= i < |init| && Step(init[i], w, deadline, strptime).Failure? {
        var i :| 0 <= i < |init| && Step(init[i], w, deadline, strptime).Failure?;
        assert items[i] == init[i];
      }
      if exists i :: 0 <= i < |items| && Step(items[i], w, deadline, strptime).Failure? {
        var i :| 0 <= i < |items| && Step(items[i], w, deadline, strptime).Failure?;
        if i < |init| {
          assert init[i] == items[i];
        }
      }
    }
  }

  /** A failed prefix fails the whole pass with the same error. */
  lemma {:induction false} PrefixFailure(items: seq<Item>, n: nat, w: Window, deadline: int, strptime: Strptime)
    requires n <= |items|
    requires Summarized(items[..n], w, deadline, strptime).Failure?
    ensures Summarized(items, w, deadline, strptime) == Summarized(items[..n], w, deadline, strptime)
    decreases |items| - n
  {
    if n < |items| {
      assert items[..n + 1][..n] == items[..n];
      PrefixFailure(items, n + 1, w, deadline, strptime);
    } else {
      assert items[..n] == items;
    }
  }

  /** The error is that of the first record that raises one. */
  lemma SummarizedFirstError(items: seq<Item>, i: nat, w: Window, deadline: int, strptime: Strptime)
    requires i < |items|
    requires Step(items[i], w, deadline, strptime).Failure?
    requires forall j :: 0 <= j < i ==> Step(items[j], w, deadline, strptime).Success?
    ensures Summarized(items, w, deadline, strptime) == Failure(Step(items[i], w, deadline, strptime).error)
  {
    var init := items[..i];
    SummarizedFails(init, w, deadline, strptime);
    assert items[..i + 1][..i] == init;
    PrefixFailure(items, i + 1, w, deadline, strptime);
  }

  /** One more dated record outside the window changes nothing. */
  lemma AppendOutside(items: seq<Item>, x: Item, date: int, w: Window, deadline: int, strptime: Strptime)
    requires Summarized(items, w, deadline, strptime).Success?
    requires CreatedAt(x, strptime) == Success(Some(date)) && !FilterByDate(w, date)
    ensures Summarized(items + [x], w, deadline, strptime) == Summarized(items, w, deadline, strptime)
  {
    AppendDated(items, x, date, w, deadline, strptime);
  }

  /** One more open record in the window adds one to `open`, and one to
      `stale` when it was created before the deadline. */
  lemma AppendOpen(items: seq<Item>, x: Item, date: int, w: Window, deadline: int, strptime: Strptime)
    requires Summarized(items, w, deadline, strptime).Success?
    requires CreatedAt(x, strptime) == Success(Some(date)) && FilterByDate(w, date) && x.state == "open"
    ensures var s := Summarized(items, w, deadline, strptime).value;
            Summarized(items + [x], w, deadline, strptime)
              == Success(Summary(s.open + 1, s.closed, s.stale + (if date < deadline then 1 else 0)))
  {
    AppendDated(items, x, date, w, deadline, strptime);
  }

  /** One more record in any other state in the window adds one to
      `closed` and nothing to `stale`. */
  lemma AppendClosed(items: seq<Item>, x: Item, date: int, w: Window, deadline: int, strptime: Strptime)
    requires Summarized(items, w, deadline, strptime).Success?
    requires CreatedAt(x, strptime) == Success(Some(date)) && FilterByDate(w, date) && x.state != "open"
    ensures var s := Summarized(items, w, deadline, strptime).value;
            Summarized(items + [x], w, deadline, strptime) == Success(Summary(s.open, s.closed + 1, s.stale))
  {
    AppendDated(items, x, date, w, deadline, strptime);
  }

  lemma AppendDated(items: seq<Item>, x: Item, date: int, w: Window, deadline: int, strptime: Strptime)
    requires Summarized(items, w, deadline, strptime).Success?
    requires CreatedAt(x, strptime) == Success(Some(date))
    ensures Summarized(items + [x], w, deadline, strptime)
            == Success(Plus(Summarized(items, w, deadline, strptime).value, Contribution(date, x.state, w, deadline)))
  {
    assert Step(x, w, deadline, strptime) == Success(Contribution(date, x.state, w, deadline));
    assert (items + [x])[..|items|] == items && (items + [x])[|items|] == x;
  }

  /** The pass raises only a date-format error or a comparison with a
      missing date. */
  lemma {:induction false} SummarizedErrors(items: seq<Item>, w: Window, deadline: int, strptime: Strptime)
    requires Summarized(items, w, deadline, strptime).Failure?
    ensures Summarized(items, w, deadline, strptime).error in {AnalyzerError("Incorrect date format"), NoneComparison}
  {
    var init := items[..|items| - 1];
    if Summarized(init, w, deadline, strptime).Failure? {
      SummarizedErrors(init, w, deadline, strptime);
    }
  }

  /** `_summarize`, with "now" as a parameter. */
  method Summarize(items: seq<Item>, w: Window, now: int, staleDays: nat, strptime: Strptime)
    returns (r: Result<Summary, Error>)
    ensures r == Summarized(items, w, Deadline(now, staleDays), strptime)
  {
    var open, closed, stale := 0, 0, 0;
    var deadline := Deadline(now, staleDays);
    for i := 0 to |items|
      invariant Summarized(items[..i], w, deadline, strptime) == Success(Summary(open, closed, stale))
    {
      var element := items[i];
      assert items[..i + 1][..i] == items[..i];
      var createdAt := ParseTime(Some(element.createdAt), "api", strptime);
      if createdAt.Failure? {
        PrefixFailure(items, i + 1, w, deadline, strptime);
        return Failure(createdAt.error);
      }
      var date := createdAt.value;
      if date.None? && (w.from.Some? || w.to.Some?) {
        PrefixFailure(items, i + 1, w, deadline, strptime);
        return Failure(NoneComparison);
      }
      if date.Some? && !FilterByDate(w, date.value) {
        continue;
      }
      if element.state == "open" {
        open := open + 1;
        if date.None? {
          PrefixFailure(items, i + 1, w, deadline, strptime);
          return Failure(NoneComparison);
        }
        if date.value < deadline {
          stale := stale + 1;
        }
      } else {
        closed := closed + 1;
      }
    }
    assert items[..|items|] == items;
    r := Success(Summary(open, closed, stale));
  }

  // ------------------------------------------------------------- contributors

  /** The distinct logins of commits that have an author, in the order of
      their first commit. */
  function Logins(commits: seq<Commit>): seq<string>
  {
    if |commits| == 0 then []
    else
      var earlier := Logins(commits[..|commits| - 1]);
      var author := commits[|commits| - 1].author;
      if author.Some? && author.value !in earlier then earlier + [author.value] else earlier
  }

  /** The number of commits by `login`. */
  function CommitsBy(commits: seq<Commit>, login: string): nat
  {
    if |commits| == 0 then 0
    else CommitsBy(commits[..|commits| - 1], login) + (if commits[|commits| - 1].author == Some(login) then 1 else 0)
  }

  /** The number of commits that have an author. */
  function Authored(commits: seq<Commit>): nat
  {
    if |commits| == 0 then 0
    else Authored(commits[..|commits| - 1]) + (if commits[|commits| - 1].author.Some? then 1 else 0)
  }

  /** `list(rating.items())`: each login with its number of commits. */
  function Entries(keys: seq<string>, commits: seq<Commit>): (r: seq<(string, nat)>)
    ensures |r| == |keys|
    ensures forall i :: 0 <= i < |keys| ==> r[i] == (keys[i], CommitsBy(commits, keys[i]))
  {
    seq(|keys|, i requires 0 <= i < |keys| => (keys[i], CommitsBy(commits, keys[i])))
  }

  /** The full ranking: entries in first-commit order, stably sorted by count. */
  function Ranking(commits: seq<Commit>): seq<(string, nat)>
  {
    StableSort.SortDesc(Entries(Logins(commits), commits))
  }

  /** Python's `s[:n]` for a non-zero `n`; `n == 0` keeps everything. */
  function Top<T>(s: seq<T>, n: int): (r: seq<T>)
    ensures n == 0 ==> r == s
    ensures n > 0 ==> |r| == (if n < |s| then n else |s|)
    ensures n < 0 ==> |r| == (if |s| + n > 0 then |s| + n else 0)
    ensures r == s[..|r|]
  {
    if n == 0 then s
    else if n > 0 then (if n < |s| then s[..n] else s)
    else if |s| + n > 0 then s[..|s| + n] else []
  }

  lemma {:induction false} LoginsMembership(commits: seq<Commit>, login: string)
    ensures login in Logins(commits) <==> CommitsBy(commits, login) > 0
  {
    if |commits| > 0 {
      LoginsMembership(commits[..|commits| - 1], login);
    }
  }

  predicate Distinct<T(==)>(s: seq<T>)
  {
    forall i, j :: 0 <= i < j < |s| ==> s[i] != s[j]
  }

  lemma {:induction false} LoginsDistinct(commits: seq<Commit>)
    ensures Distinct(Logins(commits))
  {
    if |commits| > 0 {
      LoginsDistinct(commits[..|commits| - 1]);
    }
  }

  /** The logins of any prefix of the commits begin the logins of all of them:
      logins are listed in the order of their first commit. */
  lemma {:induction false} LoginsFirstAppearance(commits: seq<Commit>, p: nat)
    requires p <= |commits|
    ensures var early := Logins(commits[..p]);
            |early| <= |Logins(commits)| && early == Logins(commits)[..|early|]
    decreases |commits| - p
  {
    if p < |commits| {
      LoginsFirstAppearance(commits, p + 1);
      assert commits[..p + 1][..p] == commits[..p];
    } else {
      assert commits[..p] == commits;
    }
  }

  /** One more commit by an author listed once in `keys` adds one to the total. */
  lemma {:induction false} EntriesTotalStep(keys: seq<string>, commits: seq<Commit>, c: Commit)
    requires Distinct(keys)
    ensures StableSort.Total(Entries(keys, commits + [c]))
            == StableSort.Total(Entries(keys, commits)) + (if c.author.Some? && c.author.value in keys then 1 else 0)
  {
    if |keys| > 0 {
      EntriesTotalStep(keys[1..], commits, c);
      assert (commits + [c])[..|commits|] == commits;
      assert Entries(keys, commits)[1..] == Entries(keys[1..], commits);
      assert Entries(keys, commits + [c])[1..] == Entries(keys[1..], commits + [c]);
      assert c.author.Some? && c.author.value in keys ==> (c.author.value == keys[0] <==> c.author.value !in keys[1..]);
    }
  }

  lemma EntriesAppend(keys: seq<string>, login: string, commits: seq<Commit>)
    ensures Entries(keys + [login], commits) == Entries(keys, commits) + [(login, CommitsBy(commits, login))]
  {
  }

  /** The counts of the entries sum to the number of commits that have an author. */
  lemma {:induction false} EntriesTotal(commits: seq<Commit>)
    ensures StableSort.Total(Entries(Logins(commits), commits)) == Authored(commits)
  {
    if |commits| > 0 {
      var init, c := commits[..|commits| - 1], commits[|commits| - 1];
      assert init + [c] == commits;
      EntriesTotal(init);
      LoginsDistinct(init);
      EntriesTotalStep(Logins(init), init, c);
      if c.author.Some? && c.author.value !in Logins(init) {
        EntriesAppend(Logins(init), c.author.value, commits);
        StableSort.TotalConcat(Entries(Logins(init), commits), [(c.author.value, CommitsBy(commits, c.author.value))]);
        LoginsMembership(init, c.author.value);
        assert StableSort.Total([(c.author.value, CommitsBy(commits, c.author.value))]) == 1;
      }
    }
  }

  lemma {:induction false} DistinctCount<T>(s: seq<T>, x: T)
    requires Distinct(s)
    ensures multiset(s)[x] <= 1
  {
    if |s| > 0 {
      DistinctCount(s[1..], x);
      assert s == [s[0]] + s[1..];
    }
  }

  /** A permutation of a list without repeats has no repeats. */
  lemma DistinctPermutation<T>(a: seq<T>, b: seq<T>)
    requires multiset(a) == multiset(b) && Distinct(b)
    ensures Distinct(a)
  {
    forall i, j | 0 <= i < j < |a| ensures a[i] != a[j] {
      if a[i] == a[j] {
        assert a == a[..i + 1] + a[i + 1..];
        assert a[i] in multiset(a[..i + 1]);
        assert a[j] == a[i + 1..][j - i - 1];
        assert a[j] in multiset(a[i + 1..]);
        DistinctCount(b, a[i]);
      }
    }
  }

  /** The ranking: one entry per login that has a commit, carrying that
      login's number of commits, no login twice, counts summing to the
      number of authored commits, sorted by count with the largest first,
      and equal counts in the order of first commit. */
  lemma RankingCorrect(commits: seq<Commit>)
    ensures var r := Ranking(commits);
            && StableSort.SortedDesc(r)
            && (forall e :: e in r <==> CommitsBy(commits, e.0) > 0 && e.1 == CommitsBy(commits, e.0))
            && (forall i, j :: 0 <= i < j < |r| ==> r[i].0 != r[j].0)
            && StableSort.Total(r) == Authored(commits)
            && (forall c :: StableSort.WithCount(r, c) == StableSort.WithCount(Entries(Logins(commits), commits), c))
  {
    var keys := Logins(commits);
    var entries := Entries(keys, commits);
    var r := Ranking(commits);
    EntriesTotal(commits);
    forall e ensures e in r <==> CommitsBy(commits, e.0) > 0 && e.1 == CommitsBy(commits, e.0) {
      assert e in r <==> e in multiset(entries);
      LoginsMembership(commits, e.0);
      if e in entries {
        var i :| 0 <= i < |entries| && entries[i] == e;
        assert keys[i] == e.0;
      }
      if CommitsBy(commits, e.0) > 0 && e.1 == CommitsBy(commits, e.0) {
        var i :| 0 <= i < |keys| && keys[i] == e.0;
        assert entries[i] == e;
      }
    }
    LoginsDistinct(commits);
    assert Distinct(entries) by {
      forall i, j | 0 <= i < j < |entries| ensures entries[i] != entries[j] {
        assert entries[i].0 == keys[i] && entries[j].0 == keys[j];
      }
    }
    DistinctPermutation(r, entries);
    forall i, j | 0 <= i < j < |r| ensures r[i].0 != r[j].0 {
      assert r[i] in r && r[j] in r;
    }
  }

  /** `get_contributors` after the fetch: count commits per login, skipping
      commits with no author, sort by count (stable, largest first) and keep
      the first `count` entries when `count` is non-zero. */
  method RankContributors(commits: seq<Commit>, count: int) returns (rating: seq<(string, nat)>)
    ensures rating == Top(Ranking(commits), count)
  {
    var logins: seq<string> := [];
    var counts: map<string, nat> := map[];
    for i := 0 to |commits|
      invariant logins == Logins(commits[..i])
      invariant forall k :: k in counts <==> k in logins
      invariant forall k :: k in counts ==> counts[k] == CommitsBy(commits[..i], k)
    {
      assert commits[..i + 1][..i] == commits[..i];
      var author := commits[i].author;
      if author.None? {
        continue;
      }
      var login := author.value;
      if login !in counts {
        LoginsMembership(commits[..i], login);
        logins := logins + [login];
        counts := counts[login := 1];
      } else {
        counts := counts[login := counts[login] + 1];
      }
    }
    assert commits[..|commits|] == commits;
    var entries := seq(|logins|, j requires 0 <= j < |logins| => (logins[j], counts[logins[j]]));
    assert entries == Entries(Logins(commits), commits);
    rating := StableSort.SortDesc(entries);
    if count != 0 {
      rating := Top(rating, count);
    }
  }

  /** The API timestamp parameter for an optional window bound. */
  function ApiTime(t: Option<int>): Repo.ParamValue
  {
    if t.Some? then Repo.PTime(t.value) else Repo.PNone
  }

  function CommitsQuery(a: Analyzer): Repo.Params
  {
    Repo.CommitsParams(ApiTime(a.window.from), ApiTime(a.window.to))
  }

  /** `Analyzer.get_contributors`: commits of the window, ranked. A failed
      request is passed on. */
  method GetContributors(a: Analyzer, http: Repo.Http<Commit>, count: int, ghost horizon: nat)
    returns (r: Result<seq<(string, nat)>, Error>, ghost requests: nat)
    requires Repo.Terminates(http, a.Repository().Url("commits"), CommitsQuery(a), 0, horizon)
    ensures Repo.StopsAt(http, a.Repository().Url("commits"), CommitsQuery(a), 0, requests)
    ensures var fetched := Repo.Outcome(http, a.Repository().Url("commits"), CommitsQuery(a), 0, requests);
            r == if fetched.Failure? then Failure(fetched.error) else Success(Top(Ranking(fetched.value), count))
    ensures r.Failure? ==> r.error.RepositoryError?
    ensures r.Success? ==> StableSort.SortedDesc(r.value)
    ensures r.Success? && count > 0 ==> |r.value| <= count
  {
    var commits;
    commits, requests := Repo.GetCommits(a.Repository(), http, ApiTime(a.window.from), ApiTime(a.window.to), horizon);
    if commits.Failure? {
      return Failure(commits.error), requests;
    }
    var rating := RankContributors(commits.value, count);
    RankingCorrect(commits.value);
    r := Success(rating);
  }

  /** `get_pull_requests_stat`: pull requests into the branch, stale after 30 days. */
  method GetPullRequestsStat(a: Analyzer, http: Repo.Http<Item>, now: int, strptime: Strptime, ghost horizon: nat)
    returns (r: Result<Summary, Error>, ghost requests: nat)
    requires Repo.Terminates(http, a.Repository().Url("pulls"), Repo.PullsParams("all", a.branch, "created"), 0, horizon)
    ensures Repo.StopsAt(http, a.Repository().Url("pulls"), Repo.PullsParams("all", a.branch, "created"), 0, requests)
    ensures var fetched := Repo.Outcome(http, a.Repository().Url("pulls"), Repo.PullsParams("all", a.branch, "created"), 0, requests);
            r == if fetched.Failure? then Failure(fetched.error)
                 else Summarized(fetched.value, a.window, Deadline(now, StalePullRequestsDays), strptime)
    ensures r.Failure? ==> r.error.RepositoryError? || r.error in {AnalyzerError("Incorrect date format"), NoneComparison}
    ensures r.Success? ==> r.value.stale <= r.value.open
  {
    var items;
    items, requests := Repo.GetPullRequests(a.Repository(), http, "all", "created", horizon);
    if items.Failure? {
      return Failure(items.error), requests;
    }
    r := Summarize(items.value, a.window, now, StalePullRequestsDays, strptime);
    if r.Success? {
      SummarizedCounts(items.value, a.window, Deadline(now, StalePullRequestsDays), strptime);
    } else {
      SummarizedErrors(items.value, a.window, Deadline(now, StalePullRequestsDays), strptime);
    }
  }

  /** `get_issues_stat`: issues, stale after 14 days. */
  method GetIssuesStat(a: Analyzer, http: Repo.Http<Item>, now: int, strptime: Strptime, ghost horizon: nat)
    returns (r: Result<Summary, Error>, ghost requests: nat)
    requires Repo.Terminates(http, a.Repository().Url("issues"), Repo.IssuesParams("all", "created"), 0, horizon)
    ensures Repo.StopsAt(http, a.Repository().Url("issues"), Repo.IssuesParams("all", "created"), 0, requests)
    ensures var fetched := Repo.Outcome(http, a.Repository().Url("issues"), Repo.IssuesParams("all", "created"), 0, requests);
            r == if fetched.Failure? then Failure(fetched.error)
                 else Summarized(fetched.value, a.window, Deadline(now, StaleIssuesDays), strptime)
    ensures r.Failure? ==> r.error.RepositoryError? || r.error in {AnalyzerError("Incorrect date format"), NoneComparison}
    ensures r.Success? ==> r.value.stale <= r.value.open
  {
    var items;
    items, requests := Repo.GetIssues(a.Repository(), http, "all", "created", horizon);
    if items.Failure? {
      return Failure(items.error), requests;
    }
    r := Summarize(items.value, a.window, now, StaleIssuesDays, strptime);
    if r.Success? {
      SummarizedCounts(items.value, a.window, Deadline(now, StaleIssuesDays), strptime);
    } else {
      SummarizedErrors(items.value, a.window, Deadline(now, StaleIssuesDays), strptime);
    }
  }
}
