/** The data layer's retry loop around a query. */
module Retry {
  import opened Models

  /** What a call of the query returns; a net.OpError tells whether it was a timeout or temporary. */
  datatype Outcome = Ok | NetError(timeout: bool, temporary: bool) | OtherError

  predicate Retryable(o: Outcome) {
    o.NetError? && (o.timeout || o.temporary)
  }

  /** What retry returns: nil, the query's own error, an error that wraps the last one (if there was
      a call at all), or a complaint about a missing function. */
  datatype Result = Nil | Plain(error: Outcome) | Exceeded(last: Option<Outcome>) | NoFunction

  /** f(i) is what the query returns when it is called for the i-th time. The loop makes no call it
      does not need and gives up exactly when every call the bound allows could be repeated. */
  method WithRetries(f: Option<nat -> Outcome>, retries: int) returns (r: Result, calls: nat)
    ensures f.None? <==> r.NoFunction?
    ensures f.None? ==> calls == 0
    ensures f.Some? ==> calls <= if retries < 0 then 0 else retries
    ensures f.Some? ==> forall i: nat :: i + 1 < calls ==> Retryable(f.value(i))
    ensures f.Some? ==> (r.Exceeded? <==> forall i: nat :: i < retries ==> Retryable(f.value(i)))
    // every call but the last met a network error that was a timeout or temporary
    ensures f.Some? ==> forall i: nat :: i + 1 < calls ==>
              f.value(i) == NetError(true, true) || f.value(i) == NetError(true, false) || f.value(i) == NetError(false, true)
    ensures f.Some? && 0 < calls < retries ==>
              f.value(calls - 1) == Ok || f.value(calls - 1) == OtherError || f.value(calls - 1) == NetError(false, false)
    ensures r.Exceeded? ==>
              && calls == (if retries < 0 then 0 else retries)
              && r.last == if calls == 0 then None else Some(f.value(calls - 1))
    ensures f.Some? && !r.Exceeded? ==>
              && calls > 0 && !Retryable(f.value(calls - 1))
              && r == if f.value(calls - 1).Ok? then Nil else Plain(f.value(calls - 1))
  {
    calls := 0;
    if f.None? {
      return NoFunction, calls;
    }
    var err: Option<Outcome> := None;
    while calls < retries
      invariant calls <= if retries < 0 then 0 else retries
      invariant forall i: nat :: i < calls ==> Retryable(f.value(i))
      invariant err == if calls == 0 then None else Some(f.value(calls - 1))
    {
      var o := f.value(calls);
      err := Some(o);
      calls := calls + 1;
      if !o.Ok? {
        if !o.NetError? {
          return Plain(o), calls;
        }
        if !o.timeout && !o.temporary {
          return Plain(o), calls;
        }
        continue;
      }
      return Nil, calls;
    }
    return Exceeded(err), calls;
  }
}
