// The signing-key cache of the token verifier.
module Jwks {
  import opened Wrappers

  type Keys = seq<string>

  // The outcome of a request, should one be made: an HTTP or decoding error, or
  // a JSON document, None standing for the document null.
  datatype Reply = Failed(error: string) | Fetched(json: Option<Keys>)

  datatype Config = Config(hasUrl: bool, ttl: real)

  datatype Cache = Cache(keys: Option<Keys>, at: real)

  // A call: the clock reading and what a request would bring.
  datatype Call = Call(now: real, reply: Reply)

  datatype KeyError = NoKeys | FetchFailed(error: string)

  // ---- One call ----

  predicate Fresh(cfg: Config, c: Cache, now: real) {
    c.keys.Some? && now - c.at < cfg.ttl
  }

  predicate Requests(cfg: Config, c: Cache, call: Call) {
    !Fresh(cfg, c, call.now) && cfg.hasUrl
  }

  predicate Refreshes(cfg: Config, c: Cache, call: Call) {
    Requests(cfg, c, call) && call.reply.Fetched?
  }

  function Next(cfg: Config, c: Cache, call: Call): Cache {
    if Refreshes(cfg, c, call) then Cache(call.reply.json, call.now) else c
  }

  class RealOidcVerifier {
    const cfg: Config
    var keys: Option<Keys>
    var at: real
    ghost var requests: nat

    ghost function Contents(): Cache
      reads this
    {
      Cache(keys, at)
    }

    // Keys given at construction count as fetched then, unless they are empty.
    constructor (hasUrl: bool, ttl: real, given: Option<Keys>, now: real)
      ensures cfg == Config(hasUrl, ttl) && requests == 0
      ensures Contents() == Cache(given, if given.Some? && given.value != [] then now else 0.0)
    {
      cfg := Config(hasUrl, ttl);
      keys := given;
      at := if given.Some? && given.value != [] then now else 0.0;
      requests := 0;
    }

    // Makes a request only when the cached keys are missing or have outlived
    // their time; serves them all the same when the request fails or cannot be
    // made.
    method GetJwks(call: Call) returns (r: Result<Option<Keys>, KeyError>)
      modifies this
      ensures Contents() == Next(cfg, old(Contents()), call)
      ensures requests == old(requests) + if Requests(cfg, old(Contents()), call) then 1 else 0
      ensures Refreshes(cfg, old(Contents()), call) ==> r == Ok(call.reply.json)
      ensures !Refreshes(cfg, old(Contents()), call) && old(keys).Some? ==> r == Ok(old(keys))
      ensures !Refreshes(cfg, old(Contents()), call) && old(keys).None? ==>
        r == Err(if cfg.hasUrl then FetchFailed(call.reply.error) else NoKeys)
    {
      var now := call.now;
      if keys.Some? && now - at < cfg.ttl {
        return Ok(keys);
      }
      if !cfg.hasUrl {
        if keys.None? {
          return Err(NoKeys);
        }
        return Ok(keys);
      }
      requests := requests + 1;
      match call.reply {
        case Fetched(json) =>
          keys := json;
          at := now;
        case Failed(error) =>
          if keys.Some? {
            return Ok(keys);
          }
          return Err(FetchFailed(error));
      }
      return Ok(keys);
    }
  }

  // ---- Runs ----

  function After(cfg: Config, c: Cache, calls: seq<Call>): Cache {
    if calls == [] then c
    else Next(cfg, After(cfg, c, calls[..|calls| - 1]), calls[|calls| - 1])
  }

  // The i-th call of the run brings new keys.
  predicate RefreshesAt(cfg: Config, c: Cache, calls: seq<Call>, i: nat)
    requires i < |calls|
  {
    Refreshes(cfg, After(cfg, c, calls[..i]), calls[i])
  }

  lemma AfterOneMore(cfg: Config, c: Cache, calls: seq<Call>, i: nat)
    requires i < |calls|
    ensures After(cfg, c, calls[..i + 1]) == Next(cfg, After(cfg, c, calls[..i]), calls[i])
  {
    assert calls[..i + 1][..i] == calls[..i];
  }

  // What is cached is what the last refresh brought.
  lemma {:induction false} LastRefreshIsCached(cfg: Config, c: Cache, calls: seq<Call>, i: nat, j: nat)
    requires i < j <= |calls| && RefreshesAt(cfg, c, calls, i)
    requires forall k | i < k < j :: !RefreshesAt(cfg, c, calls, k)
    ensures After(cfg, c, calls[..j]) == Cache(calls[i].reply.json, calls[i].now)
    decreases j
  {
    AfterOneMore(cfg, c, calls, j - 1);
    assert calls[..j - 1 + 1] == calls[..j];
    if i < j - 1 {
      assert !RefreshesAt(cfg, c, calls, j - 1);
      LastRefreshIsCached(cfg, c, calls, i, j - 1);
    }
  }

  // Between one refresh and the next, a call makes a request exactly when the
  // refresh brought the document null or is at least a lifetime old.
  lemma RequestIffNullOrExpired(cfg: Config, c: Cache, calls: seq<Call>, i: nat, j: nat)
    requires i < j < |calls| && RefreshesAt(cfg, c, calls, i)
    requires forall k | i < k < j :: !RefreshesAt(cfg, c, calls, k)
    ensures Requests(cfg, After(cfg, c, calls[..j]), calls[j])
       <==> calls[i].reply.json == None || calls[j].now - calls[i].now >= cfg.ttl
  {
    LastRefreshIsCached(cfg, c, calls, i, j);
  }

  // Hence successive refreshes are a lifetime apart, unless the earlier one
  // brought the document null.
  lemma RefreshesAreSpaced(cfg: Config, c: Cache, calls: seq<Call>, i: nat, j: nat)
    requires i < j < |calls| && RefreshesAt(cfg, c, calls, i) && RefreshesAt(cfg, c, calls, j)
    requires forall k | i < k < j :: !RefreshesAt(cfg, c, calls, k)
    requires calls[i].reply.json != None
    ensures calls[j].now - calls[i].now >= cfg.ttl
  {
    RequestIffNullOrExpired(cfg, c, calls, i, j);
  }

  // How many of the calls from i up to j refresh.
  function RefreshCount(cfg: Config, c: Cache, calls: seq<Call>, i: nat, j: nat): nat
    requires i <= j <= |calls|
    decreases j - i
  {
    if i == j then 0
    else RefreshCount(cfg, c, calls, i, j - 1) + if RefreshesAt(cfg, c, calls, j - 1) then 1 else 0
  }

  lemma {:induction false} LatestRefresh(cfg: Config, c: Cache, calls: seq<Call>, i: nat, j: nat) returns (k: nat)
    requires i < j <= |calls| && RefreshesAt(cfg, c, calls, i)
    ensures i <= k < j && RefreshesAt(cfg, c, calls, k)
    ensures forall m | k < m < j :: !RefreshesAt(cfg, c, calls, m)
    ensures RefreshCount(cfg, c, calls, i, k + 1) == RefreshCount(cfg, c, calls, i, j)
    decreases j
  {
    if RefreshesAt(cfg, c, calls, j - 1) {
      k := j - 1;
    } else {
      k := LatestRefresh(cfg, c, calls, i, j - 1);
    }
  }

  // The length of n lifetimes.
  function Lifetimes(cfg: Config, n: int): real {
    n as real * cfg.ttl
  }

  // n + 1 refreshes without the document null take at least n lifetimes.
  lemma {:induction false} RefreshRateIsBounded(cfg: Config, c: Cache, calls: seq<Call>, i: nat, j: nat)
    requires i <= j < |calls| && RefreshesAt(cfg, c, calls, i) && RefreshesAt(cfg, c, calls, j)
    requires forall k | i <= k < j && RefreshesAt(cfg, c, calls, k) :: calls[k].reply.json != None
    ensures calls[j].now - calls[i].now >= Lifetimes(cfg, RefreshCount(cfg, c, calls, i, j + 1) - 1)
    decreases j
  {
    if i < j {
      var k := LatestRefresh(cfg, c, calls, i, j);
      RefreshRateIsBounded(cfg, c, calls, i, k);
      RefreshesAreSpaced(cfg, c, calls, k, j);
      var n := RefreshCount(cfg, c, calls, i, k + 1);
      assert RefreshCount(cfg, c, calls, i, j + 1) == n + 1;
      hide RefreshCount, Lifetimes;
      OneMoreLifetime(cfg, n - 1);
    } else {
      assert RefreshCount(cfg, c, calls, i, i + 1) == 1;
    }
  }

  lemma OneMoreLifetime(cfg: Config, n: int)
    ensures Lifetimes(cfg, n + 1) == Lifetimes(cfg, n) + cfg.ttl
  {
    assert (n + 1) as real == n as real + 1.0;
  }

  // Keys past their lifetime are served only when there is no URL or the
  // request made by this very call has failed.
  lemma StaleOnlyAfterFailure(cfg: Config, c: Cache, calls: seq<Call>, j: nat)
    requires j < |calls|
    ensures var served := After(cfg, c, calls[..j + 1]);
            served.keys.Some? && calls[j].now - served.at >= cfg.ttl && cfg.ttl > 0.0 ==>
              !cfg.hasUrl || (Requests(cfg, After(cfg, c, calls[..j]), calls[j]) && calls[j].reply.Failed?)
  {
    AfterOneMore(cfg, c, calls, j);
  }
}
