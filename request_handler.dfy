/**
 * The retry policy of `RequestHandler#perform_request`.
 *
 * One call of `perform_request` makes attempts until one of them is final.
 * The remote side is the finite script of what each attempt produced, in
 * order; `sleep 1` steps are counted in `waited`.
 */
module RequestHandler {
  import opened Wrappers

  const DEFAULT_RETRY_AFTER: int := 10
  const RETRY_LIMIT: nat := 6
  /** The fixed back-off after a timeout, socket error or connection reset. */
  const NETWORK_RETRY_AFTER: nat := 30

  datatype NetworkError = RequestTimeout | SocketError | ConnectionReset

  /** What one attempt of the HTTP call produced. */
  datatype Response<T> =
    | Ok(body: T)                              // success; the body parses as JSON
    | Unparsable                               // success, but JSON.parse raises
    | TooManyRequests(retryAfter: Option<int>) // 429; the retry_after header after to_i
    | Network(error: NetworkError)
    | RestError(code: int)                     // any other RestClient exception

  /** The exception `perform_request` lets escape. */
  datatype Failure = RateLimited | Rest(code: int) | ParseError

  /** Unanswered: the script ended while the call would still retry. */
  datatype Outcome<T> = Returned(body: T) | Raised(failure: Failure) | Unanswered

  datatype Call<T> = Call(outcome: Outcome<T>, waited: nat, attempts: nat)

  /** Seconds slept after a 429: the header, or 10 when absent; `n.times` does nothing for n <= 0. */
  function Delay(header: Option<int>): (d: nat)
    ensures header.None? ==> d == DEFAULT_RETRY_AFTER
    ensures header.Some? && header.value >= 0 ==> d == header.value
    ensures header.Some? && header.value < 0 ==> d == 0
  {
    var n := header.GetOr(DEFAULT_RETRY_AFTER);
    if n > 0 then n else 0
  }

  /** The call whose first `attempts` attempts were preceded by `waited` seconds and `attempts` responses. */
  function Then<T>(waited: nat, attempts: nat, c: Call<T>): Call<T> {
    Call(c.outcome, waited + c.waited, attempts + c.attempts)
  }

  /** The policy, with `retries` rate-limited retries already made. */
  function Perform<T>(script: seq<Response<T>>, retries: nat): Call<T>
    decreases |script|
  {
    if script == [] then Call(Unanswered, 0, 0)
    else match script[0]
      case Ok(body) => Call(Returned(body), 0, 1)
      case Unparsable => Call(Raised(ParseError), 0, 1)
      case TooManyRequests(header) =>
        if retries >= RETRY_LIMIT then Call(Raised(RateLimited), 0, 1)
        else Then(Delay(header), 1, Perform(script[1..], retries + 1))
      case Network(_) => Then(NETWORK_RETRY_AFTER, 1, Perform(script[1..], retries))
      case RestError(code) => Call(Raised(Rest(code)), 0, 1)
  }

  /** `perform_request`: the begin/rescue/retry loop with its one-second sleeps. */
  method PerformRequest<T>(script: seq<Response<T>>) returns (call: Call<T>)
    ensures call == Perform(script, 0)
  {
    var retries: nat := 0;
    var waited: nat := 0;
    var i := 0;
    while i < |script|
      invariant 0 <= i <= |script|
      invariant Perform(script, 0) == Then(waited, i, Perform(script[i..], retries))
    {
      assert script[i..][1..] == script[i + 1..];
      match script[i] {
      case Ok(body) =>
        return Call(Returned(body), waited, i + 1);
      case Unparsable =>
        return Call(Raised(ParseError), waited, i + 1);
      case RestError(code) =>
        return Call(Raised(Rest(code)), waited, i + 1);
      case TooManyRequests(header) =>
        if retries >= RETRY_LIMIT {
          return Call(Raised(RateLimited), waited, i + 1);
        }
        var retryAfter := header.GetOr(DEFAULT_RETRY_AFTER);
        var start := waited;
        var step := 0;
        while step < retryAfter
          invariant 0 <= step <= if retryAfter > 0 then retryAfter else 0
          invariant waited == start + step
        {
          waited := waited + 1;
          step := step + 1;
        }
        assert waited == start + Delay(header);
        retries := retries + 1;
      case Network(_) =>
        var start := waited;
        var step := 0;
        while step < NETWORK_RETRY_AFTER
          invariant step <= NETWORK_RETRY_AFTER
          invariant waited == start + step
        {
          waited := waited + 1;
          step := step + 1;
        }
      }
      i := i + 1;
    }
    assert script[i..] == [];
    call := Call(Unanswered, waited, i);
  }

  /** The responses after which `perform_request` retries (given retries are left). */
  predicate Retrying<T>(p: seq<Response<T>>) {
    forall k | 0 <= k < |p| :: p[k].TooManyRequests? || p[k].Network?
  }

  function CountRateLimited<T>(p: seq<Response<T>>): nat {
    if p == [] then 0 else (if p[0].TooManyRequests? then 1 else 0) + CountRateLimited(p[1..])
  }

  /** Seconds slept after each of the responses in `p`, were all of them retried. */
  function TotalDelay<T>(p: seq<Response<T>>): nat {
    if p == [] then 0
    else (match p[0]
          case TooManyRequests(h) => Delay(h)
          case Network(_) => NETWORK_RETRY_AFTER
          case _ => 0) + TotalDelay(p[1..])
  }

  /**
   * A prefix of retried responses only adds its delays and its length; network
   * errors in it leave the rate-limit counter alone.
   */
  lemma {:induction false} RetriedPrefix<T>(p: seq<Response<T>>, rest: seq<Response<T>>, retries: nat)
    requires Retrying(p) && retries + CountRateLimited(p) <= RETRY_LIMIT
    ensures Perform(p + rest, retries)
         == Then(TotalDelay(p), |p|, Perform(rest, retries + CountRateLimited(p)))
    decreases |p|
  {
    if p == [] {
      assert p + rest == rest;
    } else {
      var next := retries + if p[0].TooManyRequests? then 1 else 0;
      RetryingTail(p);
      RetriedPrefix(p[1..], rest, next);
      RetryStep(p + rest, retries);
      assert (p + rest)[0] == p[0] && (p + rest)[1..] == p[1..] + rest;
    }
  }

  lemma RetryingTail<T>(p: seq<Response<T>>)
    requires Retrying(p) && p != []
    ensures Retrying(p[1..]) && (p[0].TooManyRequests? || p[0].Network?)
  {
    forall k | 0 <= k < |p[1..]| ensures p[1..][k].TooManyRequests? || p[1..][k].Network? {
      assert p[1..][k] == p[k + 1];
    }
  }

  /** One retried response: its delay and one attempt, then the rest of the call. */
  lemma RetryStep<T>(q: seq<Response<T>>, retries: nat)
    requires q != [] && (q[0].TooManyRequests? || q[0].Network?)
    requires q[0].TooManyRequests? ==> retries < RETRY_LIMIT
    ensures Perform(q, retries)
         == Then(TotalDelay([q[0]]), 1, Perform(q[1..], retries + if q[0].TooManyRequests? then 1 else 0))
  {
    assert [q[0]][1..] == [];
  }

  /** The first response that is a success is what the call returns, after the delays before it. */
  lemma FirstSuccessReturned<T>(p: seq<Response<T>>, body: T, rest: seq<Response<T>>)
    requires Retrying(p) && CountRateLimited(p) <= RETRY_LIMIT
    ensures Perform(p + [Ok(body)] + rest, 0) == Call(Returned(body), TotalDelay(p), |p| + 1)
  {
    assert p + [Ok(body)] + rest == p + ([Ok(body)] + rest);
    RetriedPrefix(p, [Ok(body)] + rest, 0);
  }

  /** The seventh 429 of one call is re-raised at once, without a further wait. */
  lemma SeventhRateLimitRaises<T>(p: seq<Response<T>>, header: Option<int>, rest: seq<Response<T>>)
    requires Retrying(p) && CountRateLimited(p) == RETRY_LIMIT
    ensures Perform(p + [TooManyRequests(header)] + rest, 0)
         == Call(Raised(RateLimited), TotalDelay(p), |p| + 1)
  {
    assert p + [TooManyRequests(header)] + rest == p + ([TooManyRequests(header)] + rest);
    RetriedPrefix(p, [TooManyRequests(header)] + rest, 0);
  }

  /** Any other RestClient exception is re-raised on the attempt that produced it. */
  lemma OtherErrorRaisedImmediately<T>(p: seq<Response<T>>, code: int, rest: seq<Response<T>>)
    requires Retrying(p) && CountRateLimited(p) <= RETRY_LIMIT
    ensures Perform(p + [RestError(code)] + rest, 0) == Call(Raised(Rest(code)), TotalDelay(p), |p| + 1)
  {
    assert p + [RestError(code)] + rest == p + ([RestError(code)] + rest);
    RetriedPrefix(p, [RestError(code)] + rest, 0);
  }

  /**
   * What a call `c` made with `retries` rate-limited retries already behind it
   * amounts to: the attempts it made are a prefix of the script, all but the
   * last of them retried, at most seven of them rate-limited in all; the wait
   * is the sum of the delays of the retried ones; and it is re-raised as
   * RateLimited exactly when the last attempt was the seventh 429.
   */
  ghost predicate Accounted<T>(script: seq<Response<T>>, retries: nat, c: Call<T>) {
    && c.attempts <= |script|
    && (c.outcome.Unanswered? ==> c.attempts == |script| && Retrying(script)
                                   && c.waited == TotalDelay(script)
                                   && retries + CountRateLimited(script) <= RETRY_LIMIT)
    && (!c.outcome.Unanswered? ==> c.attempts >= 1 && Retrying(script[..c.attempts - 1])
                                    && c.waited == TotalDelay(script[..c.attempts - 1])
                                    && retries + CountRateLimited(script[..c.attempts - 1]) <= RETRY_LIMIT)
    && (c.outcome == Raised(RateLimited) <==>
          (!c.outcome.Unanswered? && script[c.attempts - 1].TooManyRequests?
           && retries + CountRateLimited(script[..c.attempts - 1]) == RETRY_LIMIT))
  }

  lemma ConsFacts<T>(x: Response<T>, p: seq<Response<T>>)
    ensures TotalDelay([x] + p) == TotalDelay([x]) + TotalDelay(p)
    ensures CountRateLimited([x] + p) == (if x.TooManyRequests? then 1 else 0) + CountRateLimited(p)
    ensures (x.TooManyRequests? || x.Network?) && Retrying(p) ==> Retrying([x] + p)
  {
    assert ([x] + p)[0] == x && ([x] + p)[1..] == p;
    assert [x][1..] == [];
    if (x.TooManyRequests? || x.Network?) && Retrying(p) {
      forall k | 0 <= k < |[x] + p| ensures ([x] + p)[k].TooManyRequests? || ([x] + p)[k].Network? {
        if k > 0 { assert ([x] + p)[k] == p[k - 1]; }
      }
    }
  }

  /** A retried first response keeps the accounting of the rest of the call. */
  lemma RetriedAccounted<T>(script: seq<Response<T>>, retries: nat)
    requires script != [] && (script[0].TooManyRequests? || script[0].Network?)
    requires script[0].TooManyRequests? ==> retries < RETRY_LIMIT
    requires var next := retries + if script[0].TooManyRequests? then 1 else 0;
      Accounted(script[1..], next, Perform(script[1..], next))
    ensures Accounted(script, retries, Perform(script, retries))
  {
    var x, tail := script[0], script[1..];
    var next := retries + if x.TooManyRequests? then 1 else 0;
    var t, c := Perform(tail, next), Perform(script, retries);
    RetryStep(script, retries);
    assert script == [x] + tail;
    if t.outcome.Unanswered? {
      ConsFacts(x, tail);
    } else {
      var pre := tail[..t.attempts - 1];
      ConsFacts(x, pre);
      assert script[..c.attempts - 1] == [x] + pre;
      assert script[c.attempts - 1] == tail[t.attempts - 1];
    }
  }

  lemma {:induction false} PerformAccounted<T>(script: seq<Response<T>>, retries: nat)
    requires retries <= RETRY_LIMIT
    ensures Accounted(script, retries, Perform(script, retries))
    decreases |script|
  {
    if script != [] {
      var x := script[0];
      if x.Network? || (x.TooManyRequests? && retries < RETRY_LIMIT) {
        PerformAccounted(script[1..], retries + if x.TooManyRequests? then 1 else 0);
        RetriedAccounted(script, retries);
      } else {
        assert script[..Perform(script, retries).attempts - 1] == [];
      }
    }
  }

  /** Every call is accounted for, from the first attempt on. */
  lemma PerformAccounting<T>(script: seq<Response<T>>, retries: nat)
    requires retries <= RETRY_LIMIT
    ensures var c := Perform(script, retries);
      && c.attempts <= |script|
      && (c.outcome.Unanswered? ==> c.attempts == |script| && Retrying(script)
                                     && c.waited == TotalDelay(script)
                                     && retries + CountRateLimited(script) <= RETRY_LIMIT)
      && (!c.outcome.Unanswered? ==> c.attempts >= 1 && Retrying(script[..c.attempts - 1])
                                      && c.waited == TotalDelay(script[..c.attempts - 1])
                                      && retries + CountRateLimited(script[..c.attempts - 1]) <= RETRY_LIMIT)
      && (c.outcome == Raised(RateLimited) <==>
            (!c.outcome.Unanswered? && script[c.attempts - 1].TooManyRequests?
             && retries + CountRateLimited(script[..c.attempts - 1]) == RETRY_LIMIT))
  {
    PerformAccounted(script, retries);
  }

  function Repeat<T>(r: Response<T>, n: nat): (s: seq<Response<T>>)
    ensures |s| == n && forall k | 0 <= k < n :: s[k] == r
  {
    if n == 0 then [] else [r] + Repeat(r, n - 1)
  }

  /** Network errors are retried without limit, 30 seconds each. */
  lemma {:induction false} NetworkRetriesUnbounded<T>(n: nat, error: NetworkError, body: T)
    ensures Perform(Repeat(Network(error), n) + [Ok(body)], 0)
         == Call(Returned(body), NETWORK_RETRY_AFTER * n, n + 1)
  {
    var r: Response<T> := Network(error);
    var p := Repeat(r, n);
    NetworkOnly(r, n);
    FirstSuccessReturned(p, body, []);
    assert p + [Ok(body)] + [] == p + [Ok(body)];
  }

  lemma {:induction false} NetworkOnly<T>(r: Response<T>, n: nat)
    requires r.Network?
    ensures Retrying(Repeat(r, n))
    ensures CountRateLimited(Repeat(r, n)) == 0
    ensures TotalDelay(Repeat(r, n)) == NETWORK_RETRY_AFTER * n
  {
    if n > 0 {
      NetworkOnly(r, n - 1);
      assert Repeat(r, n)[1..] == Repeat(r, n - 1);
    }
  }

  /** Seven 429s without a header: six waits of 10 seconds, then RateLimited. */
  lemma SevenBareRateLimits<T>(rest: seq<Response<T>>)
    ensures Perform(Repeat(TooManyRequests(None), 7) + rest, 0)
         == Call(Raised(RateLimited), 60, 7)
  {
    var p: seq<Response<T>> := Repeat(TooManyRequests(None), 6);
    assert CountRateLimited(p) == 6 by {
      assert p[1..] == Repeat(TooManyRequests(None), 5);
      assert p[2..] == Repeat(TooManyRequests(None), 4);
      assert p[3..] == Repeat(TooManyRequests(None), 3);
      assert p[4..] == Repeat(TooManyRequests(None), 2);
      assert p[5..] == Repeat(TooManyRequests(None), 1);
    }
    assert TotalDelay(p) == 60 by {
      assert p[1..] == Repeat(TooManyRequests(None), 5);
      assert p[2..] == Repeat(TooManyRequests(None), 4);
      assert p[3..] == Repeat(TooManyRequests(None), 3);
      assert p[4..] == Repeat(TooManyRequests(None), 2);
      assert p[5..] == Repeat(TooManyRequests(None), 1);
    }
    SeventhRateLimitRaises(p, None, rest);
    assert Repeat(TooManyRequests(None), 7) == p + [TooManyRequests(None)];
  }
}
