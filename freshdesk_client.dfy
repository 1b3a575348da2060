/**
 * Page-number pagination of the Freshdesk client (`Freshdesk::Client`).
 *
 * The remote side is the finite script of the pages the listing endpoint
 * answers, one per request, in request order. Each request is recorded as a
 * `Request` value rather than as the URL built from it.
 */
module FreshdeskClient {
  import opened Wrappers
  import Text
  import Seqs

  const DEFAULT_PER_PAGE: int := 100
  const FIRST_PAGE: int := 1
  /** Freshdesk refuses page numbers above 300. */
  const MAX_PAGE: int := 300
  const DEFAULT_TICKETS_UPDATED_SINCE: string := "2000-01-01"

  /** The query of one listing request; `extra` holds the other (string) parameters. */
  datatype Request = Request(path: string, perPage: int, page: int,
                             updatedSince: Option<string>, extra: map<string, string>)

  /** `each_page`'s set-up: `per_page` and `page` default to 100 and 1 unless the caller gives them. */
  function InitialRequest(path: string, perPage: Option<int>, page: Option<int>,
                          updatedSince: Option<string>, extra: map<string, string>): (q: Request)
    ensures perPage.None? ==> q.perPage == DEFAULT_PER_PAGE
    ensures page.None? ==> q.page == FIRST_PAGE
    ensures perPage.Some? ==> q.perPage == perPage.value
    ensures page.Some? ==> q.page == page.value
    ensures q.path == path && q.updatedSince == updatedSince && q.extra == extra
  {
    Request(path, perPage.GetOr(DEFAULT_PER_PAGE), page.GetOr(FIRST_PAGE), updatedSince, extra)
  }

  /**
   * The request after a full page: with a watermark at page 300, back to page 1
   * with the watermark moved to the last item's `updated_at` (through
   * `Util.utc_format`, here `utc`); otherwise the next page.
   */
  function NextRequest<T>(q: Request, response: seq<T>, stamp: T -> string, utc: string -> string): Request
    requires |response| > 0
  {
    if q.updatedSince.Some? && q.page == MAX_PAGE then
      q.(page := FIRST_PAGE, updatedSince := Some(utc(stamp(response[|response| - 1]))))
    else
      q.(page := q.page + 1)
  }

  /**
   * What `each_page` does with a script of answers: the pages it passes to the
   * block, the requests it made (one per answer it read), and whether the loop
   * ended by itself (false: the script ran out first).
   */
  datatype Paged<T> = Paged(pages: seq<seq<T>>, requests: seq<Request>, complete: bool)

  function Pages<T>(script: seq<seq<T>>, q: Request, stamp: T -> string, utc: string -> string): Paged<T>
    decreases |script|
  {
    if script == [] then Paged([], [], false)
    else if |script[0]| == 0 then Paged([], [q], true)
    else if |script[0]| < q.perPage then Paged([script[0]], [q], true)
    else
      var rest := Pages(script[1..], NextRequest(q, script[0], stamp, utc), stamp, utc);
      Paged([script[0]] + rest.pages, [q] + rest.requests, rest.complete)
  }

  lemma PagesUnfold<T>(script: seq<seq<T>>, q: Request, stamp: T -> string, utc: string -> string)
    requires script != []
    ensures var r := Pages(script, q, stamp, utc);
      && r.requests == [q] + r.requests[1..]
      && (|script[0]| == 0 ==> r == Paged([], [q], true))
      && (0 < |script[0]| < q.perPage ==> r == Paged([script[0]], [q], true))
      && (0 < |script[0]| && q.perPage <= |script[0]| ==>
            var rest := Pages(script[1..], NextRequest(q, script[0], stamp, utc), stamp, utc);
            r.pages == [script[0]] + rest.pages && r.pages[1..] == rest.pages
            && r.requests[1..] == rest.requests && r.complete == rest.complete)
  {
  }

  /** `each_page`: the loop that mutates `params[:page]` and `params[:updated_since]`. */
  method EachPage<T>(path: string, perPage: Option<int>, page: Option<int>, updatedSince: Option<string>,
                     extra: map<string, string>, script: seq<seq<T>>,
                     stamp: T -> string, utc: string -> string)
    returns (pages: seq<seq<T>>, requests: seq<Request>, complete: bool)
    ensures Paged(pages, requests, complete)
         == Pages(script, InitialRequest(path, perPage, page, updatedSince, extra), stamp, utc)
  {
    var q := InitialRequest(path, perPage, page, updatedSince, extra);
    ghost var spec := Pages(script, q, stamp, utc);
    pages, requests := [], [];
    var i := 0;
    while i < |script|
      invariant 0 <= i <= |script|
      invariant spec.pages == pages + Pages(script[i..], q, stamp, utc).pages
      invariant spec.requests == requests + Pages(script[i..], q, stamp, utc).requests
      invariant spec.complete == Pages(script[i..], q, stamp, utc).complete
    {
      ghost var tail := script[i..];
      assert tail[0] == script[i] && tail[1..] == script[i + 1..];
      PagesUnfold(tail, q, stamp, utc);
      var response := script[i];
      Seqs.AppendAssoc(requests, [q], Pages(tail, q, stamp, utc).requests[1..]);
      requests := requests + [q];
      if |response| == 0 {
        return pages, requests, true;
      }
      Seqs.AppendAssoc(pages, [response], Pages(tail, q, stamp, utc).pages[1..]);
      pages := pages + [response];
      if |response| < q.perPage {
        return pages, requests, true;
      }
      ghost var previous := q;
      if q.updatedSince.Some? && q.page == MAX_PAGE {
        q := q.(updatedSince := Some(utc(stamp(response[|response| - 1]))), page := FIRST_PAGE);
      } else {
        q := q.(page := q.page + 1);
      }
      assert q == NextRequest(previous, response, stamp, utc);
      i := i + 1;
    }
    assert script[i..] == [];
    complete := false;
  }

  /** How many requests and pages a run has, and how it ends. */
  lemma {:induction false} PagesCounts<T>(script: seq<seq<T>>, q: Request, stamp: T -> string, utc: string -> string)
    ensures var r := Pages(script, q, stamp, utc);
      && |r.requests| <= |script|
      && (script != [] ==> |r.requests| >= 1 && r.requests[0] == q)
      && (|r.pages| == |r.requests| || |r.pages| + 1 == |r.requests|)
      && (r.complete ==> |r.requests| >= 1)
      && (r.complete ==>
            var last := |r.requests| - 1;
            && (|script[last]| == 0 || |script[last]| < r.requests[last].perPage)
            && (|r.pages| == |r.requests| <==> |script[last]| > 0))
      && (!r.complete ==> |r.requests| == |script| && |r.pages| == |script|)
    decreases |script|
  {
    if script != [] && |script[0]| > 0 && |script[0]| >= q.perPage {
      var next := NextRequest(q, script[0], stamp, utc);
      PagesCounts(script[1..], next, stamp, utc);
      var rest := Pages(script[1..], next, stamp, utc);
      var r := Pages(script, q, stamp, utc);
      assert r.pages == [script[0]] + rest.pages;
      assert r.requests == [q] + rest.requests;
      if r.complete {
        var last := |r.requests| - 1;
        assert last >= 1;
        assert r.requests[last] == rest.requests[last - 1];
        assert script[last] == script[1..][last - 1];
      }
    }
  }

  /** What each page and each request of a run is. */
  lemma {:induction false} PagesContents<T>(script: seq<seq<T>>, q: Request, stamp: T -> string, utc: string -> string)
    ensures var r := Pages(script, q, stamp, utc);
      && |r.pages| <= |r.requests| <= |script|
      && (forall k | 0 <= k < |r.pages| :: r.pages[k] == script[k] && |script[k]| > 0)
      && (forall k | 0 <= k < |r.requests| - 1 ::
            |script[k]| >= r.requests[k].perPage && |script[k]| > 0
            && r.requests[k + 1] == NextRequest(r.requests[k], script[k], stamp, utc))
    decreases |script|
  {
    PagesCounts(script, q, stamp, utc);
    if script != [] && |script[0]| > 0 && |script[0]| >= q.perPage {
      var next := NextRequest(q, script[0], stamp, utc);
      PagesContents(script[1..], next, stamp, utc);
      var rest := Pages(script[1..], next, stamp, utc);
      var r := Pages(script, q, stamp, utc);
      assert r.pages == [script[0]] + rest.pages;
      assert r.requests == [q] + rest.requests;
      forall k | 0 <= k < |r.requests| - 1
        ensures |script[k]| >= r.requests[k].perPage && |script[k]| > 0
             && r.requests[k + 1] == NextRequest(r.requests[k], script[k], stamp, utc)
      {
        if k > 0 {
          assert r.requests[k] == rest.requests[k - 1] && script[k] == script[1..][k - 1];
        }
      }
      forall k | 0 <= k < |r.pages| ensures r.pages[k] == script[k] && |script[k]| > 0 {
        if k > 0 {
          assert r.pages[k] == rest.pages[k - 1] && script[k] == script[1..][k - 1];
        }
      }
    }
  }

  /**
   * The shape of every run: one request per answer read, starting with the
   * initial request; each yielded page is the whole, non-empty answer to its
   * request; each request after the first follows from the previous one and
   * the full page it got; a run that ends by itself ends on an empty or short
   * answer, and only the last request can have got an empty one.
   */
  lemma PagesShape<T>(script: seq<seq<T>>, q: Request, stamp: T -> string, utc: string -> string)
    ensures var r := Pages(script, q, stamp, utc);
      && |r.requests| <= |script|
      && (script != [] ==> |r.requests| >= 1 && r.requests[0] == q)
      && (|r.pages| == |r.requests| || |r.pages| + 1 == |r.requests|)
      && (forall k | 0 <= k < |r.pages| :: r.pages[k] == script[k] && |script[k]| > 0)
      && (forall k | 0 <= k < |r.requests| - 1 ::
            |script[k]| >= r.requests[k].perPage && |script[k]| > 0
            && r.requests[k + 1] == NextRequest(r.requests[k], script[k], stamp, utc))
      && (r.complete ==> |r.requests| >= 1)
      && (r.complete ==>
            var last := |r.requests| - 1;
            && (|script[last]| == 0 || |script[last]| < r.requests[last].perPage)
            && (|r.pages| == |r.requests| <==> |script[last]| > 0))
      && (!r.complete ==> |r.requests| == |script| && |r.pages| == |script|)
  {
    PagesCounts(script, q, stamp, utc);
    PagesContents(script, q, stamp, utc);
  }

  predicate PageInRange(q: Request) {
    FIRST_PAGE <= q.page <= MAX_PAGE
  }

  /** With a watermark, the page counter never leaves 1..300 and the watermark is never dropped. */
  lemma {:induction false} PageCounterBounded<T>(script: seq<seq<T>>, q: Request, stamp: T -> string, utc: string -> string)
    requires q.updatedSince.Some? && PageInRange(q)
    ensures forall k | 0 <= k < |Pages(script, q, stamp, utc).requests| ::
      var rk := Pages(script, q, stamp, utc).requests[k]; PageInRange(rk) && rk.updatedSince.Some?
    decreases |script|
  {
    if script != [] && |script[0]| > 0 && |script[0]| >= q.perPage {
      var next := NextRequest(q, script[0], stamp, utc);
      PageCounterBounded(script[1..], next, stamp, utc);
      var r := Pages(script, q, stamp, utc);
      var rest := Pages(script[1..], next, stamp, utc);
      assert r.requests == [q] + rest.requests;
      forall k | 0 <= k < |r.requests| ensures PageInRange(r.requests[k]) && r.requests[k].updatedSince.Some? {
        if k > 0 { assert r.requests[k] == rest.requests[k - 1]; }
      }
    }
  }

  /** Without a watermark there is no rollover: request k asks for page `page + k`. */
  lemma {:induction false} PagesWithoutWatermark<T>(script: seq<seq<T>>, q: Request, stamp: T -> string, utc: string -> string)
    requires q.updatedSince.None?
    ensures forall k | 0 <= k < |Pages(script, q, stamp, utc).requests| ::
      Pages(script, q, stamp, utc).requests[k] == q.(page := q.page + k)
    decreases |script|
  {
    if script != [] && |script[0]| > 0 && |script[0]| >= q.perPage {
      var next := NextRequest(q, script[0], stamp, utc);
      PagesWithoutWatermark(script[1..], next, stamp, utc);
      var r := Pages(script, q, stamp, utc);
      var rest := Pages(script[1..], next, stamp, utc);
      assert r.requests == [q] + rest.requests;
      forall k | 0 <= k < |r.requests| ensures r.requests[k] == q.(page := q.page + k) {
        if k > 0 { assert r.requests[k] == rest.requests[k - 1]; }
      }
    }
  }

  /** The 300th full page of a watermarked listing rolls over to page 1 at the last item's time. */
  lemma RolloverAtPage300<T>(script: seq<seq<T>>, q: Request, stamp: T -> string, utc: string -> string)
    requires |script| >= 2 && q.updatedSince.Some? && q.page == MAX_PAGE
    requires |script[0]| > 0 && |script[0]| >= q.perPage
    ensures |Pages(script, q, stamp, utc).requests| >= 2
    ensures Pages(script, q, stamp, utc).requests[1]
         == q.(page := FIRST_PAGE, updatedSince := Some(utc(stamp(script[0][|script[0]| - 1]))))
  {
    PagesShape(script[1..], NextRequest(q, script[0], stamp, utc), stamp, utc);
  }

  /** `all_resources`: the block concatenates every page into one result array. */
  method AllResources<T>(path: string, extra: map<string, string>, script: seq<seq<T>>,
                         stamp: T -> string, utc: string -> string)
    returns (result: seq<T>, complete: bool)
    ensures var r := Pages(script, InitialRequest(path, None, None, None, extra), stamp, utc);
      result == Seqs.Flatten(r.pages) && complete == r.complete
  {
    var pages, requests;
    pages, requests, complete := EachPage(path, None, None, None, extra, script, stamp, utc);
    result := [];
    var k := 0;
    while k < |pages|
      invariant 0 <= k <= |pages|
      invariant result == Seqs.Flatten(pages[..k])
    {
      Seqs.FlattenSnoc(pages[..k], pages[k]);
      assert pages[..k + 1] == pages[..k] + [pages[k]];
      result := result + pages[k];
      k := k + 1;
    }
    assert pages[..k] == pages;
  }

  /**
   * The query `each_ticket` starts from: its defaults, with every parameter the
   * caller passes overriding the default of the same name (`Hash#merge`).
   */
  function TicketDefaults(configuredSince: Option<string>): map<string, string> {
    map["updated_since" := configuredSince.GetOr(DEFAULT_TICKETS_UPDATED_SINCE),
        "include" := "description,requester",
        "order_type" := "asc",
        "order_by" := "updated_at"]
  }

  function TicketParams(configuredSince: Option<string>, args: map<string, string>): (p: map<string, string>)
    ensures p.Keys == TicketDefaults(configuredSince).Keys + args.Keys
    ensures forall k | k in args :: p[k] == args[k]
    ensures forall k | k in TicketDefaults(configuredSince) && k !in args :: p[k] == TicketDefaults(configuredSince)[k]
  {
    TicketDefaults(configuredSince) + args
  }

  lemma TicketParamsDefaults(configuredSince: Option<string>, args: map<string, string>)
    ensures "updated_since" !in args && configuredSince.None? ==>
      TicketParams(configuredSince, args)["updated_since"] == "2000-01-01"
    ensures "order_type" !in args ==> TicketParams(configuredSince, args)["order_type"] == "asc"
    ensures "order_by" !in args ==> TicketParams(configuredSince, args)["order_by"] == "updated_at"
  {
  }

  /**
   * `each_ticket`: the tickets of every page, in order, listed with the
   * merged query; `updated_since` is always set, so the 300-page rollover applies.
   */
  method EachTicket<T>(configuredSince: Option<string>, args: map<string, string>, script: seq<seq<T>>,
                       stamp: T -> string, utc: string -> string)
    returns (tickets: seq<T>, requests: seq<Request>, complete: bool)
    requires "per_page" !in args && "page" !in args
    ensures var params := TicketParams(configuredSince, args);
      var r := Pages(script, InitialRequest("tickets", None, None, Some(params["updated_since"]),
                                            params - {"updated_since"}), stamp, utc);
      tickets == Seqs.Flatten(r.pages) && requests == r.requests && complete == r.complete
    ensures forall k | 0 <= k < |requests| :: PageInRange(requests[k]) && requests[k].updatedSince.Some?
  {
    var params := TicketParams(configuredSince, args);
    var q := InitialRequest("tickets", None, None, Some(params["updated_since"]), params - {"updated_since"});
    var pages;
    pages, requests, complete := EachPage("tickets", None, None, Some(params["updated_since"]),
                                          params - {"updated_since"}, script, stamp, utc);
    PageCounterBounded(script, q, stamp, utc);
    tickets := [];
    var k := 0;
    while k < |pages|
      invariant 0 <= k <= |pages|
      invariant tickets == Seqs.Flatten(pages[..k])
    {
      Seqs.FlattenSnoc(pages[..k], pages[k]);
      assert pages[..k + 1] == pages[..k] + [pages[k]];
      tickets := tickets + pages[k];
      k := k + 1;
    }
    assert pages[..k] == pages;
  }

  /** `validate!`: the subdomain and the API token must be non-empty (empty, not blank). */
  function Validate(subdomain: Option<string>, apiToken: Option<string>): (r: Option<string>)
    ensures r.None? <==> (subdomain.Some? && subdomain.value != "" && apiToken.Some? && apiToken.value != "")
    ensures (subdomain.None? || subdomain.value == "") ==> r == Some("subdomain required!")
  {
    if subdomain.None? || subdomain.value == "" then Some("subdomain required!")
    else if apiToken.None? || apiToken.value == "" then Some("API token required!")
    else None
  }
}
