/**
 * The Zendesk client (`Zendesk::Client`): bulk-job polling, the three shapes
 * of next-page indicator, cursor/link pagination, search, the bulk import path
 * and configuration validation.
 *
 * Remote answers are finite scripts consumed in request order. URLs are
 * `Url` values: a string the response handed back, or the listing endpoint
 * with the caller's query and an optional `page[after]` cursor.
 */
module ZendeskClient {
  import opened Wrappers
  import Text
  import Seqs

  // ----- bulk jobs -----

  datatype JobState = Queued | Working | Completed | Other(name: string) {
    /** `%w[queued working].include?(status)` */
    predicate Pending() { Queued? || Working? }
  }

  /** One entry of `job_status.results`. */
  datatype JobResult = JobResult(index: Option<int>, id: Option<int>, error: Option<string>, details: Option<string>)

  /** A `job_status` document; `results` is nil until the destination reports them. */
  datatype Job = Job(id: int, status: JobState, progress: int, total: int, results: Option<seq<JobResult>>)

  /** Seconds slept before each re-poll. */
  const POLL_INTERVAL: nat := 5

  /**
   * Polling `job` with the given answers to `job_status`: the last job seen,
   * how many polls were made, and whether a non-pending status was reached
   * (false: the answers ran out while still pending).
   */
  datatype Settled = Settled(job: Job, polls: nat, settled: bool)

  function Settle(job: Job, polls: seq<Job>): Settled
    decreases |polls|
  {
    if !job.status.Pending() then Settled(job, 0, true)
    else if polls == [] then Settled(job, 0, false)
    else
      var r := Settle(polls[0], polls[1..]);
      r.(polls := r.polls + 1)
  }

  /**
   * Polling re-polls exactly while the status is queued or working and ends on
   * the last job polled, not an earlier snapshot.
   */
  lemma {:induction false} SettleShape(job: Job, polls: seq<Job>)
    ensures var r := Settle(job, polls);
      && r.polls <= |polls|
      && (r.settled <==> !r.job.status.Pending())
      && (r.polls == 0 ==> r.job == job)
      && (r.polls > 0 ==> r.job == polls[r.polls - 1] && job.status.Pending())
      && (forall k | 0 <= k < r.polls - 1 :: polls[k].status.Pending())
      && (!r.settled ==> r.polls == |polls|)
    decreases |polls|
  {
    if job.status.Pending() && polls != [] {
      SettleShape(polls[0], polls[1..]);
      var r := Settle(job, polls);
      var t := Settle(polls[0], polls[1..]);
      forall k | 0 <= k < r.polls - 1 ensures polls[k].status.Pending() {
        if k > 0 { assert polls[k] == polls[1..][k - 1]; }
      }
      if t.polls > 0 { assert polls[r.polls - 1] == polls[1..][t.polls - 1]; }
    }
  }

  /** A job that is queued, then working, then completed is polled three times and the third answer returned. */
  lemma ThreePolls(queued: Job, working: Job, completed: Job, more: seq<Job>)
    requires queued.status == Queued && working.status == Working && completed.status == Completed
    ensures Settle(queued, [queued, working, completed] + more) == Settled(completed, 3, true)
  {
    var polls := [queued, working, completed] + more;
    assert polls[1..] == [working, completed] + more;
    assert polls[1..][1..] == [completed] + more;
    assert polls[1..][1..][1..] == more;
    assert Settle(completed, more) == Settled(completed, 0, true);
    assert Settle(working, [completed] + more) == Settled(completed, 1, true);
    assert Settle(queued, [working, completed] + more) == Settled(completed, 2, true);
  }

  /** What the client's `wait_for_completion!` ends with. */
  datatype Awaited = JobDone(job: Job) | JobFailed | StillPending(job: Job)

  /**
   * `Client#wait_for_completion!`: sleeps 5 seconds before each poll; raises
   * 'JobFailed' unless the final status is completed.
   */
  method WaitForCompletion(job: Job, polls: seq<Job>) returns (r: Awaited, polled: nat, waited: nat)
    ensures var s := Settle(job, polls);
      && polled == s.polls && waited == POLL_INTERVAL * polled
      && r == (if !s.settled then StillPending(s.job)
               else if s.job.status == Completed then JobDone(s.job)
               else JobFailed)
  {
    var current := job;
    polled, waited := 0, 0;
    while current.status.Pending()
      invariant polled <= |polls|
      invariant waited == POLL_INTERVAL * polled
      invariant Settle(job, polls) == Settle(current, polls[polled..]).(polls := Settle(current, polls[polled..]).polls + polled)
      decreases |polls| - polled
    {
      if polled == |polls| {
        return StillPending(current), polled, waited;
      }
      assert polls[polled..][1..] == polls[polled + 1..];
      waited := waited + POLL_INTERVAL;
      current := polls[polled];
      polled := polled + 1;
    }
    if current.status != Completed {
      return JobFailed, polled, waited;
    }
    r := JobDone(current);
  }

  // ----- next-page indicators -----

  datatype Meta = Meta(hasMore: bool, afterCursor: Option<string>)

  /**
   * A listing response. `nextPage`: None when the key is absent, Some(None)
   * when it is present with null. `linksNext`: `links.next`, when there is one.
   * `meta`: None when absent or blank. `results` / `named`: the arrays under
   * "results" and under the resource's own name, when those keys exist.
   *
   * Not representable: a `results` key holding null (each_page would raise
   * on `nil.length`) and a `links` key holding null (next_page_url would
   * raise on `nil['next']`); only well-formed listings are modelled.
   */
  datatype Listing<T> = Listing(nextPage: Option<Option<string>>, linksNext: Option<string>,
                                meta: Option<Meta>, results: Option<seq<T>>, named: Option<seq<T>>)

  datatype Url = Link(s: string) | Endpoint(path: string, after: Option<string>)

  /** `req_url.blank?` on a possibly-nil URL; a built endpoint URL is never blank. */
  predicate UrlBlank(u: Option<Url>) {
    u.None? || (u.value.Link? && Text.Blank(u.value.s))
  }

  function LinkOf(s: Option<string>): Option<Url> {
    if s.Some? then Some(Link(s.value)) else None
  }

  /** The cursor condition of the third shape: `meta` present, `has_more` true, `after_cursor` not blank. */
  predicate HasCursor<T>(response: Listing<T>) {
    response.meta.Some? && response.meta.value.hasMore && !Text.BlankOpt(response.meta.value.afterCursor)
  }

  /** `next_page_url`, with the cursor branch setting `params[:page][:after]` as intended. */
  function NextPageUrl<T>(response: Listing<T>, path: string): (r: Option<Url>)
    ensures response.nextPage.Some? ==> r == LinkOf(response.nextPage.value)
    ensures r.None? <==> response.nextPage == Some(None)
    ensures r.Some? && r.value.Endpoint? ==>
      && response.nextPage.None? && HasCursor(response)
      && r.value == Endpoint(path, response.meta.value.afterCursor)
  {
    if response.nextPage.Some? then LinkOf(response.nextPage.value)
    else if response.linksNext.Some? && !Text.Blank(response.linksNext.value) then Some(Link(response.linksNext.value))
    else if !HasCursor(response) then Some(Link(""))
    else Some(Endpoint(path, response.meta.value.afterCursor))
  }

  /** The three shapes in priority order: a `next_page` key, even null, wins over `links` and `meta`. */
  lemma NextPageKeyWins<T>(response: Listing<T>, path: string, links: Option<string>, meta: Option<Meta>)
    requires response.nextPage.Some?
    ensures NextPageUrl(response.(linksNext := links, meta := meta), path) == NextPageUrl(response, path)
    ensures NextPageUrl(response, path) == LinkOf(response.nextPage.value)
    ensures UrlBlank(NextPageUrl(response, path)) <==> Text.BlankOpt(response.nextPage.value)
  {
  }

  /** Without a `next_page` key a present `links.next` wins over `meta`. */
  lemma LinksBeforeMeta<T>(response: Listing<T>, path: string, meta: Option<Meta>)
    requires response.nextPage.None? && response.linksNext.Some? && !Text.Blank(response.linksNext.value)
    ensures NextPageUrl(response.(meta := meta), path) == Some(Link(response.linksNext.value))
  {
  }

  /** When pagination stops: exactly when no shape yields a usable indicator. */
  lemma NextPageStops<T>(response: Listing<T>, path: string)
    ensures UrlBlank(NextPageUrl(response, path)) <==>
      (if response.nextPage.Some? then Text.BlankOpt(response.nextPage.value)
       else (response.linksNext.None? || Text.Blank(response.linksNext.value)) && !HasCursor(response))
    ensures !UrlBlank(NextPageUrl(response, path)) && response.nextPage.None?
            && (response.linksNext.None? || Text.Blank(response.linksNext.value))
        ==> NextPageUrl(response, path) == Some(Endpoint(path, response.meta.value.afterCursor))
  {
    if response.nextPage.None? && (response.linksNext.None? || Text.Blank(response.linksNext.value)) && !HasCursor(response) {
      assert Text.Blank("");
    }
  }

  /** `next_page_url` as written: the cursor branch refers to an undefined `page` and raises NameError. */
  datatype NextPage = Found(url: Option<Url>) | RaisedNameError

  function NextPageUrlAsWritten<T>(response: Listing<T>, path: string): (r: NextPage)
    ensures r.RaisedNameError? ==> HasCursor(response) && NextPageUrl(response, path) == Some(Endpoint(path, response.meta.value.afterCursor))
    ensures r.Found? ==> r.url == NextPageUrl(response, path)
  {
    if response.nextPage.Some? then Found(LinkOf(response.nextPage.value))
    else if response.linksNext.Some? && !Text.Blank(response.linksNext.value) then Found(Some(Link(response.linksNext.value)))
    else if !HasCursor(response) then Found(Some(Link("")))
    else RaisedNameError
  }

  /** The written and the intended versions differ on exactly the cursor shape. */
  lemma AsWrittenDiffersOnlyOnCursor<T>(response: Listing<T>, path: string)
    ensures NextPageUrlAsWritten(response, path) == RaisedNameError <==>
      (response.nextPage.None? && (response.linksNext.None? || Text.Blank(response.linksNext.value)) && HasCursor(response))
    ensures NextPageUrlAsWritten(response, path) != RaisedNameError ==>
      NextPageUrlAsWritten(response, path) == Found(NextPageUrl(response, path))
  {
  }

  /** A cursor-paginated response (`meta.has_more` with a cursor and nothing else) makes the code as written raise. */
  lemma CursorResponseRaisesAsWritten(items: seq<int>)
    ensures NextPageUrlAsWritten(Listing(None, None, Some(Meta(true, Some("c1"))), Some(items), None), "users")
         == RaisedNameError
    ensures NextPageUrl(Listing(None, None, Some(Meta(true, Some("c1"))), Some(items), None), "users")
         == Some(Endpoint("users", Some("c1")))
  {
    assert !Text.Blank("c1") by { assert !Text.IsSpace("c1"[0]); }
  }

  // ----- each_page -----

  /** `response.key?('results') ? response['results'] : response[path]`; None when that is nil. */
  function Items<T>(response: Listing<T>): (r: Option<seq<T>>)
    ensures response.results.Some? ==> r == response.results
    ensures response.results.None? ==> r == response.named
  {
    if response.results.Some? then response.results else response.named
  }

  /**
   * Drained: the loop broke (blank URL or empty page). MissingItems: a
   * response had neither array, and `nil.length` raised NoMethodError.
   * Exhausted: the script ran out while another request was due.
   */
  datatype End = Drained | MissingItems | Exhausted

  datatype Listed<T> = Listed(pages: seq<seq<T>>, urls: seq<Url>, end: End)

  function ListPages<T>(script: seq<Listing<T>>, url: Option<Url>, path: string): Listed<T>
    decreases |script|
  {
    if UrlBlank(url) then Listed([], [], Drained)
    else if script == [] then Listed([], [], Exhausted)
    else
      var response := script[0];
      var items := Items(response);
      if items.None? then Listed([], [url.value], MissingItems)
      else if |items.value| == 0 then Listed([], [url.value], Drained)
      else
        var rest := ListPages(script[1..], NextPageUrl(response, path), path);
        Listed([items.value] + rest.pages, [url.value] + rest.urls, rest.end)
  }

  /** `each_page`: the loop that reassigns `req_url`. */
  method EachPage<T>(path: string, script: seq<Listing<T>>) returns (pages: seq<seq<T>>, urls: seq<Url>, end: End)
    ensures Listed(pages, urls, end) == ListPages(script, Some(Endpoint(path, None)), path)
  {
    var url: Option<Url> := Some(Endpoint(path, None));
    ghost var spec := ListPages(script, url, path);
    pages, urls := [], [];
    var i := 0;
    while !UrlBlank(url)
      invariant 0 <= i <= |script|
      invariant spec.pages == pages + ListPages(script[i..], url, path).pages
      invariant spec.urls == urls + ListPages(script[i..], url, path).urls
      invariant spec.end == ListPages(script[i..], url, path).end
      decreases |script| - i
    {
      if i == |script| {
        return pages, urls, Exhausted;
      }
      assert script[i..][1..] == script[i + 1..];
      var response := script[i];
      urls := urls + [url.value];
      var items := Items(response);
      if items.None? {
        return pages, urls, MissingItems;
      }
      if |items.value| == 0 {
        return pages, urls, Drained;
      }
      pages := pages + [items.value];
      url := NextPageUrl(response, path);
      i := i + 1;
    }
    end := Drained;
  }

  /**
   * Every yielded page is the non-empty item array of the response to its
   * URL, and each URL after the first is the next-page indicator of the
   * response before it.
   */
  lemma {:induction false} ListPagesShape<T>(script: seq<Listing<T>>, url: Option<Url>, path: string)
    ensures var r := ListPages(script, url, path);
      && |r.pages| <= |r.urls| <= |script|
      && (r.urls != [] ==> Some(r.urls[0]) == url)
      && (forall k | 0 <= k < |r.pages| :: Items(script[k]) == Some(r.pages[k]) && |r.pages[k]| > 0)
      && (forall k | 0 <= k < |r.urls| - 1 :: Some(r.urls[k + 1]) == NextPageUrl(script[k], path))
      && (r.end == Exhausted ==> |r.urls| == |script|)
      && (r.end != Exhausted && |r.pages| < |r.urls| ==> |r.pages| + 1 == |r.urls|)
    decreases |script|
  {
    if !UrlBlank(url) && script != [] {
      var items := Items(script[0]);
      if items.Some? && |items.value| > 0 {
        var next := NextPageUrl(script[0], path);
        ListPagesShape(script[1..], next, path);
        var r := ListPages(script, url, path);
        var rest := ListPages(script[1..], next, path);
        assert r.pages == [items.value] + rest.pages;
        assert r.urls == [url.value] + rest.urls;
        forall k | 0 <= k < |r.pages| ensures Items(script[k]) == Some(r.pages[k]) && |r.pages[k]| > 0 {
          if k > 0 { assert r.pages[k] == rest.pages[k - 1] && script[k] == script[1..][k - 1]; }
        }
        forall k | 0 <= k < |r.urls| - 1 ensures Some(r.urls[k + 1]) == NextPageUrl(script[k], path) {
          if k > 0 { assert r.urls[k + 1] == rest.urls[k] && script[k] == script[1..][k - 1]; }
        }
      }
    }
  }

  // ----- search -----

  datatype SearchPage<T> = SearchPage(results: Option<seq<T>>, nextPage: Option<string>)

  /** The accumulated results, the pages they came from, and whether the loop ended by itself. */
  datatype Searched<T> = Searched(results: seq<T>, pages: seq<seq<T>>, complete: bool)

  /** `results.blank?` on a possibly-nil array. */
  predicate NoResults<T>(results: Option<seq<T>>) {
    results.None? || |results.value| == 0
  }

  /** The search loop with `count` results already accumulated. */
  function SearchFrom<T>(script: seq<SearchPage<T>>, limit: int, count: nat): (r: Searched<T>)
    ensures |r.pages| <= |script|
    decreases |script|
  {
    if script == [] then Searched([], [], false)
    else if NoResults(script[0].results) then Searched([], [], true)
    else
      var items := script[0].results.value;
      if Text.BlankOpt(script[0].nextPage) || count + |items| >= limit then Searched(items, [items], true)
      else
        var rest := SearchFrom(script[1..], limit, count + |items|);
        Searched(items + rest.results, [items] + rest.pages, rest.complete)
  }

  /** One step of the search loop: what the first answer decides. */
  lemma SearchUnfold<T>(script: seq<SearchPage<T>>, limit: int, count: nat)
    requires script != []
    ensures var r := SearchFrom(script, limit, count); var page := script[0];
      && (NoResults(page.results) ==> r.results == [] && r.complete)
      && (!NoResults(page.results) && (Text.BlankOpt(page.nextPage) || count + |page.results.value| >= limit) ==>
            r.results == page.results.value && r.complete)
      && (!NoResults(page.results) && !(Text.BlankOpt(page.nextPage) || count + |page.results.value| >= limit) ==>
            var rest := SearchFrom(script[1..], limit, count + |page.results.value|);
            r.results == page.results.value + rest.results && r.complete == rest.complete)
  {
  }

  /** The `limit` of `search` when the caller gives none. */
  const DEFAULT_SEARCH_LIMIT: int := 100

  /**
   * With the default limit, a search stops on the page that brings the
   * results to 100 or more, whatever pages would follow.
   */
  lemma SearchDefaultLimitStops<T>(a: seq<T>, b: seq<T>, n1: string, n2: Option<string>, more: seq<SearchPage<T>>)
    requires 0 < |a| < DEFAULT_SEARCH_LIMIT <= |a| + |b| && !Text.Blank(n1)
    ensures var r := SearchFrom([SearchPage(Some(a), Some(n1)), SearchPage(Some(b), n2)] + more, DEFAULT_SEARCH_LIMIT, 0);
      r.results == a + b && r.complete
  {
    var script := [SearchPage(Some(a), Some(n1)), SearchPage(Some(b), n2)] + more;
    assert script[1..] == [SearchPage(Some(b), n2)] + more;
    assert script[1..][0] == SearchPage(Some(b), n2);
  }

  /** `search`: appends every non-empty page and follows `next_page` until it is blank or `limit` is reached. */
  method Search<T>(script: seq<SearchPage<T>>, limit: int) returns (results: seq<T>, complete: bool)
    ensures results == SearchFrom(script, limit, 0).results && complete == SearchFrom(script, limit, 0).complete
  {
    ghost var spec := SearchFrom(script, limit, 0);
    results := [];
    var i := 0;
    assert script[0..] == script;
    while i < |script|
      invariant 0 <= i <= |script|
      invariant spec.results == results + SearchFrom(script[i..], limit, |results|).results
      invariant spec.complete == SearchFrom(script[i..], limit, |results|).complete
    {
      ghost var tail := script[i..];
      assert tail[0] == script[i] && tail[1..] == script[i + 1..];
      SearchUnfold(tail, limit, |results|);
      var response := script[i];
      if NoResults(response.results) {
        return results, true;
      }
      var items := response.results.value;
      if Text.BlankOpt(response.nextPage) || |results| + |items| >= limit {
        return results + items, true;
      }
      Seqs.AppendAssoc(results, items, SearchFrom(script[i + 1..], limit, |results| + |items|).results);
      results := results + items;
      i := i + 1;
    }
    assert script[i..] == [];
    complete := false;
  }

  /** The results are the non-empty pages answered, in order. */
  lemma {:induction false} SearchAccumulates<T>(script: seq<SearchPage<T>>, limit: int, count: nat)
    ensures var r := SearchFrom(script, limit, count);
      && r.results == Seqs.Flatten(r.pages)
      && |r.pages| <= |script|
      && (forall k | 0 <= k < |r.pages| :: script[k].results == Some(r.pages[k]) && |r.pages[k]| > 0)
    decreases |script|
  {
    if script != [] && !NoResults(script[0].results) {
      var items := script[0].results.value;
      var r := SearchFrom(script, limit, count);
      if !(Text.BlankOpt(script[0].nextPage) || count + |items| >= limit) {
        SearchAccumulates(script[1..], limit, count + |items|);
        var rest := SearchFrom(script[1..], limit, count + |items|);
        assert r.pages == [items] + rest.pages;
        assert r.results == items + rest.results;
        assert Seqs.Flatten(r.pages) == items + Seqs.Flatten(r.pages[1..]);
        assert r.pages[1..] == rest.pages;
        forall k | 0 <= k < |r.pages| ensures script[k].results == Some(r.pages[k]) && |r.pages[k]| > 0 {
          if k > 0 { assert r.pages[k] == rest.pages[k - 1] && script[k] == script[1..][k - 1]; }
        }
      } else {
        assert Seqs.Flatten([items]) == items + Seqs.Flatten([items][1..]);
      }
    }
  }

  /**
   * The limit is only checked after a whole page is appended: every page but
   * the last was taken while the count was below the limit, so the result may
   * exceed the limit by up to one page, and never by more.
   */
  lemma {:induction false} SearchOvershootsByAtMostOnePage<T>(script: seq<SearchPage<T>>, limit: int, count: nat)
    requires count < limit
    ensures var r := SearchFrom(script, limit, count);
      r.pages != [] ==> count + |r.results| - |r.pages[|r.pages| - 1]| < limit
    decreases |script|
  {
    if script != [] && !NoResults(script[0].results) {
      var items := script[0].results.value;
      if !(Text.BlankOpt(script[0].nextPage) || count + |items| >= limit) {
        SearchOvershootsByAtMostOnePage(script[1..], limit, count + |items|);
        var r := SearchFrom(script, limit, count);
        var rest := SearchFrom(script[1..], limit, count + |items|);
        assert r.pages == [items] + rest.pages;
        assert r.results == items + rest.results;
        if rest.pages != [] {
          assert r.pages[|r.pages| - 1] == rest.pages[|rest.pages| - 1];
        } else {
          assert rest.results == [] by { SearchAccumulates(script[1..], limit, count + |items|); }
        }
      }
    }
  }

  /** A search that ends by itself below the limit ended on empty results or a blank `next_page`. */
  lemma {:induction false} SearchStopsBelowLimit<T>(script: seq<SearchPage<T>>, limit: int, count: nat)
    ensures var r := SearchFrom(script, limit, count);
      r.complete && count + |r.results| < limit ==>
        (|r.pages| < |script| && NoResults(script[|r.pages|].results))
        || (r.pages != [] && Text.BlankOpt(script[|r.pages| - 1].nextPage))
    decreases |script|
  {
    SearchAccumulates(script, limit, count);
    if script != [] && !NoResults(script[0].results) {
      var items := script[0].results.value;
      if !(Text.BlankOpt(script[0].nextPage) || count + |items| >= limit) {
        SearchStopsBelowLimit(script[1..], limit, count + |items|);
        var r := SearchFrom(script, limit, count);
        var rest := SearchFrom(script[1..], limit, count + |items|);
        SearchAccumulates(script[1..], limit, count + |items|);
        assert r.pages == [items] + rest.pages;
        assert r.results == items + rest.results;
        if |r.pages| < |script| { assert script[|r.pages|] == script[1..][|rest.pages|]; }
        if rest.pages != [] { assert script[|r.pages| - 1] == script[1..][|rest.pages| - 1]; }
      }
    }
  }

  /** Search does not truncate: one page of three against a limit of one returns all three. */
  lemma SearchOvershoots(a: int, b: int, c: int)
    ensures SearchFrom([SearchPage(Some([a, b, c]), Some("https://next"))], 1, 0).results == [a, b, c]
  {
  }

  // ----- small pure helpers -----

  const CREATE_MANY: string := "/create_many"
  const TICKETS_IMPORT: string := "imports/tickets"

  /** `bulk_import_path`: tickets go through the import endpoint, everything else through create_many. */
  function BulkImportPath(name: string): (p: string)
    ensures name == "tickets" ==> p == "/imports/tickets/create_many"
    ensures name != "tickets" ==> p == "/" + name + "/create_many"
  {
    if name == "tickets" then "/" + TICKETS_IMPORT + CREATE_MANY else "/" + name + CREATE_MANY
  }

  /** Recovers the resource name from a create_many path (the inverse of `BulkImportPath`). */
  function ResourceNameOf(p: string): Option<string> {
    if |p| >= 1 + |CREATE_MANY| && p[0] == '/' && p[|p| - |CREATE_MANY|..] == CREATE_MANY then
      var inner := p[1..|p| - |CREATE_MANY|];
      if inner == TICKETS_IMPORT then Some("tickets") else Some(inner)
    else None
  }

  /** Every resource name except "imports/tickets" (which collides with tickets) is recovered from its path. */
  lemma BulkImportPathRoundTrip(name: string)
    requires name != TICKETS_IMPORT
    ensures ResourceNameOf(BulkImportPath(name)) == Some(name)
  {
    var inner := if name == "tickets" then TICKETS_IMPORT else name;
    var p := "/" + inner + CREATE_MANY;
    assert BulkImportPath(name) == p;
    assert p[0] == '/';
    assert p[|p| - |CREATE_MANY|..] == CREATE_MANY;
    assert p[1..|p| - |CREATE_MANY|] == inner;
  }

  /** The one collision: resource "imports/tickets" gets the tickets import path. */
  lemma BulkImportPathCollision()
    ensures BulkImportPath("imports/tickets") == BulkImportPath("tickets")
  {
  }

  /** `validate!`: subdomain, API token and admin email must not be blank; the first blank one is reported. */
  function Validate(subdomain: Option<string>, apiToken: Option<string>, adminEmail: Option<string>): (r: Option<string>)
    ensures r.None? <==> !Text.BlankOpt(subdomain) && !Text.BlankOpt(apiToken) && !Text.BlankOpt(adminEmail)
    ensures Text.BlankOpt(subdomain) ==> r == Some("subdomain required!")
    ensures !Text.BlankOpt(subdomain) && Text.BlankOpt(apiToken) ==> r == Some("API token required!")
  {
    if Text.BlankOpt(subdomain) then Some("subdomain required!")
    else if Text.BlankOpt(apiToken) then Some("API token required!")
    else if Text.BlankOpt(adminEmail) then Some("Admin email required!")
    else None
  }
}
