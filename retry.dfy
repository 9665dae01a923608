/** `get_time_series`: one query to the time-series service, retried up to
    five times until the service answers with status 200. */
module Retry {
  import opened Wrappers

  /** What the service answers to one request. */
  datatype Response = Response(status: int, text: string)

  /** The network as an oracle: the answer to the n-th request of the run
      (counting from 0) when that request is sent to the given URL. */
  type Service = (string, nat) -> Response

  /** The most requests one query makes. */
  const MaxAttempts: nat := 5

  const StatusOk: int := 200

  /** The outcome of some requests, and the request counter afterwards. */
  datatype Fetched = Fetched(result: Result<string, Error>, sent: nat)

  /** The outcome of a query whose first `sent` requests of the run were already made:
      attempts continue from attempt `k` while the answers are not 200. */
  function AttemptsFrom(net: Service, url: string, sent: nat, k: nat): Fetched
    requires k < MaxAttempts
    decreases MaxAttempts - k
  {
    var resp := net(url, sent + k);
    if resp.status == StatusOk then Fetched(Ok(resp.text), sent + k + 1)
    else if k + 1 == MaxAttempts then Fetched(Err(ServiceError(resp.status, url, resp.text)), sent + k + 1)
    else AttemptsFrom(net, url, sent, k + 1)
  }

  /** The outcome of one query issued after `sent` earlier requests. */
  function Fetch(net: Service, url: string, sent: nat): Fetched
  {
    AttemptsFrom(net, url, sent, 0)
  }

  /** `attempts` requests to `url` with outcome `r` is what the retry loop does:
      between one and five requests, every answer before the last one not 200,
      the body of the last answer when it is 200, and otherwise, after the fifth
      request, an error carrying its status, the URL and its body. */
  ghost predicate RetryOutcome(net: Service, url: string, sent: nat, r: Result<string, Error>, attempts: nat)
  {
    && 1 <= attempts <= MaxAttempts
    && (forall n :: sent <= n < sent + attempts - 1 ==> net(url, n).status != StatusOk)
    && var last := net(url, sent + attempts - 1);
       if last.status == StatusOk then r == Ok(last.text)
       else attempts == MaxAttempts && r == Err(ServiceError(last.status, url, last.text))
  }

  lemma {:induction false} AttemptsFromOutcome(net: Service, url: string, sent: nat, k: nat)
    requires k < MaxAttempts
    requires forall n :: sent <= n < sent + k ==> net(url, n).status != StatusOk
    ensures AttemptsFrom(net, url, sent, k).sent > sent + k
    ensures RetryOutcome(net, url, sent, AttemptsFrom(net, url, sent, k).result, AttemptsFrom(net, url, sent, k).sent - sent)
    decreases MaxAttempts - k
  {
    var resp := net(url, sent + k);
    if resp.status != StatusOk && k + 1 < MaxAttempts {
      AttemptsFromOutcome(net, url, sent, k + 1);
    }
  }

  /** The query function and the retry loop's outcome agree, in both directions:
      the query's outcome is a retry outcome, and a retry outcome is the query's. */
  lemma {:induction false} FetchIsRetryOutcome(net: Service, url: string, sent: nat, r: Result<string, Error>, attempts: nat)
    ensures RetryOutcome(net, url, sent, Fetch(net, url, sent).result, Fetch(net, url, sent).sent - sent)
    ensures Fetch(net, url, sent).sent > sent
    ensures RetryOutcome(net, url, sent, r, attempts) <==> Fetch(net, url, sent) == Fetched(r, sent + attempts)
  {
    AttemptsFromOutcome(net, url, sent, 0);
  }

  /** Fetching never costs more than five requests, and succeeds exactly when
      one of the first five answers is 200. */
  lemma FetchBounds(net: Service, url: string, sent: nat)
    ensures sent + 1 <= Fetch(net, url, sent).sent <= sent + MaxAttempts
    ensures Fetch(net, url, sent).result.Ok? <==>
      exists n :: sent <= n < sent + MaxAttempts && net(url, n).status == StatusOk
  {
    FetchIsRetryOutcome(net, url, sent, Fetch(net, url, sent).result, Fetch(net, url, sent).sent - sent);
    var f := Fetch(net, url, sent);
    if f.result.Ok? {
      assert net(url, sent + (f.sent - sent - 1)).status == StatusOk;
    }
  }

  /** The retry loop of `get_time_series`: request `url` until an answer is 200,
      at most five times; return the body of that answer, or the error for the last one. */
  method GetTimeSeries(net: Service, url: string, sent: nat) returns (r: Result<string, Error>, attempts: nat)
    ensures 1 <= attempts <= MaxAttempts
    ensures forall n :: sent <= n < sent + attempts - 1 ==> net(url, n).status != StatusOk
    ensures net(url, sent + attempts - 1).status == StatusOk ==> r == Ok(net(url, sent + attempts - 1).text)
    ensures net(url, sent + attempts - 1).status != StatusOk ==>
      attempts == MaxAttempts &&
      r == Err(ServiceError(net(url, sent + attempts - 1).status, url, net(url, sent + attempts - 1).text))
    ensures Fetch(net, url, sent) == Fetched(r, sent + attempts)
  {
    var iteration := 0;
    var done := false;
    var resp := Response(0, "");
    while !done && iteration < MaxAttempts
      invariant 0 <= iteration <= MaxAttempts
      invariant forall n :: sent <= n < sent + iteration ==> net(url, n).status != StatusOk
      invariant done ==> iteration < MaxAttempts && resp == net(url, sent + iteration) && resp.status == StatusOk
      invariant !done && iteration > 0 ==> resp == net(url, sent + iteration - 1)
    {
      resp := net(url, sent + iteration);
      if resp.status == StatusOk {
        done := true;
      } else {
        iteration := iteration + 1;
      }
    }
    if !done {
      r, attempts := Err(ServiceError(resp.status, url, resp.text)), MaxAttempts;
    } else {
      r, attempts := Ok(resp.text), iteration + 1;
    }
    FetchIsRetryOutcome(net, url, sent, r, attempts);
  }
}
