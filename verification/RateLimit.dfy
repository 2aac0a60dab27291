// The per-subject token bucket. A request is charged against a bucket that
// refills continuously; this file proves what a whole run of such requests can
// be granted, for arbitrary call times (also times that run backwards).
module RateLimit {
  import opened PyText

  type Key = PyString

  datatype Config = Config(ratePerMinute: int, burst: int) {
    // Tokens per second.
    function Rate(): real {
      ratePerMinute as real / 60.0
    }

    function Burst(): real {
      burst as real
    }
  }

  // One request on one key: the clock reading it carries and its cost.
  datatype Request = Request(now: real, cost: real)

  // One call of Allow.
  datatype Call = Call(key: Key, request: Request)

  function Min(x: real, y: real): real {
    if x <= y then x else y
  }

  // The tokens a bucket gains between two clock readings; negative when the
  // second reading is the earlier one.
  function Earned(c: Config, from: real, to: real): real {
    (to - from) * c.Rate()
  }

  // A bucket gains as many tokens a minute as its rate says.
  lemma MinuteEarnsTheRate(c: Config, x: real)
    ensures Earned(c, x, x + 60.0) == c.ratePerMinute as real
  {
  }

  // Burst plus refill, written out.
  lemma AllowanceIs(c: Config, from: real, to: real)
    ensures c.Burst() + Earned(c, from, to) == c.burst as real + (to - from) * c.ratePerMinute as real / 60.0
  {
  }

  lemma EarnedAdds(c: Config, x: real, y: real, z: real)
    ensures Earned(c, x, y) + Earned(c, y, z) == Earned(c, x, z)
  {
  }

  lemma EarnedNothing(c: Config, x: real)
    ensures Earned(c, x, x) == 0.0
  {
  }

  lemma EarnedMonotone(c: Config, x: real, y: real, x': real, y': real)
    requires c.ratePerMinute >= 0 && y - x <= y' - x'
    ensures Earned(c, x, y) <= Earned(c, x', y')
  {
    var r, d, d' := c.Rate(), y - x, y' - x';
    assert r * (d' - d) >= 0.0;
  }

  // ---- The requests of a single key, in the order they take the lock ----

  // What is left of a token count after a request of the given cost.
  function Charged(tokens: real, cost: real): real {
    if tokens >= cost then tokens - cost else tokens
  }

  // The token count call n is tested against: after its refill, before its charge.
  function Refilled(c: Config, h: seq<Request>, n: nat): real
    requires n < |h|
  {
    if n == 0 then c.Burst()
    else
      var left := Charged(Refilled(c, h, n - 1), h[n - 1].cost);
      Min(c.Burst(), left + Earned(c, h[n - 1].now, h[n].now))
  }

  predicate Admits(c: Config, h: seq<Request>, n: nat)
    requires n < |h|
  {
    Refilled(c, h, n) >= h[n].cost
  }

  function Charge(c: Config, h: seq<Request>, n: nat): real
    requires n < |h|
  {
    if Admits(c, h, n) then h[n].cost else 0.0
  }

  // The token count call n leaves behind.
  function Remaining(c: Config, h: seq<Request>, n: nat): real
    requires n < |h|
  {
    Charged(Refilled(c, h, n), h[n].cost)
  }

  // The cost granted to calls lo, ..., hi - 1.
  function Admitted(c: Config, h: seq<Request>, lo: nat, hi: nat): real
    requires lo <= hi <= |h|
    decreases hi - lo
  {
    if lo == hi then 0.0 else Admitted(c, h, lo, hi - 1) + Charge(c, h, hi - 1)
  }

  // What the budget that opened at call k leaves for call n.
  function Budget(c: Config, h: seq<Request>, k: nat, n: nat): real
    requires k <= n < |h|
  {
    c.Burst() + Earned(c, h[k].now, h[n].now) - Admitted(c, h, k, n)
  }

  // The token count is the minimum of the budgets opened by all calls so far:
  // below each of them, and equal to one. No sign or order is assumed of rate,
  // burst, costs or times.
  lemma {:induction false} TokensAreLeastBudget(c: Config, h: seq<Request>, n: nat) returns (k: nat)
    requires n < |h|
    ensures k <= n && Refilled(c, h, n) == Budget(c, h, k, n)
    ensures forall j: nat | j <= n :: Refilled(c, h, n) <= Budget(c, h, j, n)
  {
    if n == 0 {
      k := 0;
    } else {
      k := TokensAreLeastBudget(c, h, n - 1);
      forall j: nat | j <= n - 1
        ensures Budget(c, h, j, n) == Budget(c, h, j, n - 1) - Charge(c, h, n - 1) + Earned(c, h[n - 1].now, h[n].now)
      {
        BudgetStep(c, h, j, n);
      }
      if Refilled(c, h, n) == c.Burst() {
        k := n;
      }
    }
  }

  lemma BudgetStep(c: Config, h: seq<Request>, j: nat, n: nat)
    requires j < n < |h|
    ensures Budget(c, h, j, n)
         == Budget(c, h, j, n - 1) - Charge(c, h, n - 1) + Earned(c, h[n - 1].now, h[n].now)
  {
    EarnedAdds(c, h[j].now, h[n - 1].now, h[n].now);
  }

  lemma AdmittedIffWithinEveryBudget(c: Config, h: seq<Request>, n: nat)
    requires n < |h|
    ensures Admits(c, h, n) <==> forall k: nat | k <= n :: h[n].cost <= Budget(c, h, k, n)
  {
    var k := TokensAreLeastBudget(c, h, n);
    assert Refilled(c, h, n) == Budget(c, h, k, n);
  }

  // ---- Decisions stated without the bucket ----

  // The cost of the requests lo, ..., hi - 1 that the decisions ds grant.
  function Granted(h: seq<Request>, ds: seq<bool>, lo: nat, hi: nat): real
    requires lo <= hi <= |h| == |ds|
    decreases hi - lo
  {
    if lo == hi then 0.0
    else Granted(h, ds, lo, hi - 1) + (if ds[hi - 1] then h[hi - 1].cost else 0.0)
  }

  // Granting call n as well keeps the interval from call k to call n within
  // burst plus refill.
  predicate Fits(c: Config, h: seq<Request>, ds: seq<bool>, k: nat, n: nat)
    requires k <= n < |h| == |ds|
  {
    Granted(h, ds, k, n) + h[n].cost <= c.Burst() + Earned(c, h[k].now, h[n].now)
  }

  predicate FitsAll(c: Config, h: seq<Request>, ds: seq<bool>, n: nat)
    requires n < |h| == |ds|
  {
    forall k: nat | k <= n :: Fits(c, h, ds, k, n)
  }

  // Decisions that grant a request exactly when no interval ending there is overdrawn.
  predicate Greedy(c: Config, h: seq<Request>, ds: seq<bool>)
    requires |h| == |ds|
  {
    forall n: nat | n < |h| :: ds[n] <==> FitsAll(c, h, ds, n)
  }

  predicate AreDecisions(c: Config, h: seq<Request>, ds: seq<bool>, to: nat)
    requires to <= |h| == |ds|
  {
    forall n: nat | n < to :: ds[n] <==> Admits(c, h, n)
  }

  lemma {:induction false} GrantedIsAdmitted(c: Config, h: seq<Request>, ds: seq<bool>, lo: nat, hi: nat)
    requires lo <= hi <= |h| == |ds| && AreDecisions(c, h, ds, hi)
    ensures Granted(h, ds, lo, hi) == Admitted(c, h, lo, hi)
    decreases hi - lo
  {
    if lo < hi {
      GrantedIsAdmitted(c, h, ds, lo, hi - 1);
    }
  }

  lemma FitsAllIsAdmits(c: Config, h: seq<Request>, ds: seq<bool>, n: nat)
    requires n < |h| == |ds| && AreDecisions(c, h, ds, n)
    ensures FitsAll(c, h, ds, n) <==> Admits(c, h, n)
  {
    forall k: nat | k <= n
      ensures Fits(c, h, ds, k, n) <==> h[n].cost <= Budget(c, h, k, n)
    {
      GrantedIsAdmitted(c, h, ds, k, n);
    }
    AdmittedIffWithinEveryBudget(c, h, n);
  }

  lemma {:induction false} GreedyAgreesTo(c: Config, h: seq<Request>, ds: seq<bool>, n: nat)
    requires n <= |h| == |ds| && Greedy(c, h, ds)
    ensures AreDecisions(c, h, ds, n)
  {
    if n > 0 {
      GreedyAgreesTo(c, h, ds, n - 1);
      FitsAllIsAdmits(c, h, ds, n - 1);
    }
  }

  // The bucket's decisions are the one and only solution of Greedy.
  lemma DecisionsAreTheGreedyOnes(c: Config, h: seq<Request>, ds: seq<bool>)
    requires |h| == |ds|
    ensures Greedy(c, h, ds) <==> AreDecisions(c, h, ds, |h|)
  {
    if Greedy(c, h, ds) {
      GreedyAgreesTo(c, h, ds, |h|);
    }
    if AreDecisions(c, h, ds, |h|) {
      forall n: nat | n < |h|
        ensures ds[n] <==> FitsAll(c, h, ds, n)
      {
        FitsAllIsAdmits(c, h, ds, n);
      }
    }
  }

  // ---- The window bound ----

  predicate InWindow(h: seq<Request>, from: real, to: real, i: nat)
    requires i < |h|
  {
    from <= h[i].now <= to
  }

  // The cost granted to those of the first n calls whose clock reading lies in the window.
  function AdmittedInWindow(c: Config, h: seq<Request>, from: real, to: real, n: nat): real
    requires n <= |h|
  {
    if n == 0 then 0.0
    else AdmittedInWindow(c, h, from, to, n - 1) +
         (if InWindow(h, from, to, n - 1) then Charge(c, h, n - 1) else 0.0)
  }

  ghost predicate CostsNonNegative(h: seq<Request>) {
    forall i: nat | i < |h| :: h[i].cost >= 0.0
  }

  lemma {:induction false} WindowIsWithinAllowance(c: Config, h: seq<Request>, from: real, to: real, n: nat)
    requires n <= |h| && from <= to
    requires c.ratePerMinute >= 0 && c.burst >= 0 && CostsNonNegative(h)
    ensures AdmittedInWindow(c, h, from, to, n) <= c.Burst() + Earned(c, from, to)
  {
    if n == 0 {
      EarnedMonotone(c, from, from, from, to);
    } else if InWindow(h, from, to, n - 1) && Admits(c, h, n - 1) {
      var f := FirstInWindow(h, from, to, n - 1);
      WindowWithinSpan(c, h, from, to, f, n);
      AdmittedIffWithinEveryBudget(c, h, n - 1);
      assert h[n - 1].cost <= Budget(c, h, f, n - 1);
      EarnedMonotone(c, h[f].now, h[n - 1].now, from, to);
    } else {
      WindowIsWithinAllowance(c, h, from, to, n - 1);
    }
  }

  // Whatever the order in which the clock readings reach the lock, the cost
  // granted to readings inside one window is bounded by the burst and a sixtieth
  // of the rate per second.
  lemma WindowBound(c: Config, h: seq<Request>, from: real, to: real, n: nat)
    requires n <= |h| && from <= to
    requires c.ratePerMinute >= 0 && c.burst >= 0 && CostsNonNegative(h)
    ensures AdmittedInWindow(c, h, from, to, n) <= c.burst as real + (to - from) * c.ratePerMinute as real / 60.0
  {
    WindowIsWithinAllowance(c, h, from, to, n);
    AllowanceIs(c, from, to);
    hide *;
  }

  lemma {:induction false} FirstInWindow(h: seq<Request>, from: real, to: real, n: nat) returns (f: nat)
    requires n < |h| && InWindow(h, from, to, n)
    ensures f <= n && InWindow(h, from, to, f)
    ensures forall i: nat | i < f :: !InWindow(h, from, to, i)
    decreases n
  {
    if j: nat :| j < n && InWindow(h, from, to, j) {
      f := FirstInWindow(h, from, to, j);
    } else {
      f := n;
    }
  }

  lemma {:induction false} WindowWithinSpan(c: Config, h: seq<Request>, from: real, to: real, f: nat, n: nat)
    requires f <= n <= |h| && CostsNonNegative(h)
    requires forall i: nat | i < f :: !InWindow(h, from, to, i)
    ensures AdmittedInWindow(c, h, from, to, n) <= Admitted(c, h, f, n)
    decreases n
  {
    if n > f {
      WindowWithinSpan(c, h, from, to, f, n - 1);
    } else if n > 0 {
      WindowWithinSpan(c, h, from, to, f - 1, n - 1);
    }
  }

  // ---- The other direction: conforming streams lose nothing ----

  // The total cost asked for by requests lo, ..., hi - 1.
  function Demand(h: seq<Request>, lo: nat, hi: nat): real
    requires lo <= hi <= |h|
    decreases hi - lo
  {
    if lo == hi then 0.0 else Demand(h, lo, hi - 1) + h[hi - 1].cost
  }

  predicate DemandFits(c: Config, h: seq<Request>, k: nat, n: nat)
    requires k <= n < |h|
  {
    Demand(h, k, n + 1) <= c.Burst() + Earned(c, h[k].now, h[n].now)
  }

  predicate AllAdmitted(c: Config, h: seq<Request>, to: nat)
    requires to <= |h|
  {
    forall n: nat | n < to :: Admits(c, h, n)
  }

  // A stream is granted whole exactly when its own demand never exceeds burst
  // plus refill over any of its intervals.
  lemma ConformingStreamIsGrantedWhole(c: Config, h: seq<Request>)
    ensures AllAdmitted(c, h, |h|)
       <==> (forall k: nat, n: nat | k <= n < |h| :: DemandFits(c, h, k, n))
  {
    var ds := seq(|h|, _ => true);
    forall n: nat | n < |h|
      ensures FitsAll(c, h, ds, n) <==> forall k: nat | k <= n :: DemandFits(c, h, k, n)
    {
      forall k: nat | k <= n
        ensures Fits(c, h, ds, k, n) == DemandFits(c, h, k, n)
      {
        AllGrantedIsDemand(h, ds, k, n);
      }
    }
    assert Greedy(c, h, ds) <==> forall k: nat, n: nat | k <= n < |h| :: DemandFits(c, h, k, n) by {
      if Greedy(c, h, ds) {
        forall k: nat, n: nat | k <= n < |h|
          ensures DemandFits(c, h, k, n)
        {
          assert ds[n];
        }
      }
    }
    assert AreDecisions(c, h, ds, |h|) <==> AllAdmitted(c, h, |h|);
    DecisionsAreTheGreedyOnes(c, h, ds);
  }

  lemma {:induction false} AllGrantedIsDemand(h: seq<Request>, ds: seq<bool>, lo: nat, hi: nat)
    requires lo <= hi <= |h| == |ds| && forall i: nat | i < |ds| :: ds[i]
    ensures Granted(h, ds, lo, hi) == Demand(h, lo, hi)
    decreases hi - lo
  {
    if lo < hi {
      AllGrantedIsDemand(h, ds, lo, hi - 1);
    }
  }

  // ---- Prefixes: later calls never change earlier decisions ----

  lemma {:induction false} PrefixDecides(c: Config, h: seq<Request>, g: seq<Request>, n: nat)
    requires n < |h| && h <= g
    ensures Refilled(c, h, n) == Refilled(c, g, n)
    ensures Admits(c, h, n) == Admits(c, g, n)
    ensures Remaining(c, h, n) == Remaining(c, g, n)
    decreases n
  {
    assert h[n] == g[n];
    if n > 0 {
      assert h[n - 1] == g[n - 1];
      PrefixDecides(c, h, g, n - 1);
    }
  }

  // ---- The limiter object ----

  // The requests made on one key, in order.
  function Past(calls: seq<Call>, key: Key): seq<Request> {
    if calls == [] then []
    else
      var n := |calls| - 1;
      if calls[n].key == key then Past(calls[..n], key) + [calls[n].request] else Past(calls[..n], key)
  }

  lemma PastAppend(calls: seq<Call>, call: Call, key: Key)
    ensures Past(calls + [call], key)
         == if call.key == key then Past(calls, key) + [call.request] else Past(calls, key)
  {
    var all := calls + [call];
    assert all[..|all| - 1] == calls;
  }

  // What a bucket holds between calls.
  datatype Balance = Balance(tokens: real, lastRefill: real)

  // What each key's own requests leave behind.
  function Balances(c: Config, calls: seq<Call>): map<Key, Balance> {
    map key | key in Keys(calls) && Past(calls, key) != [] :: Left(c, Past(calls, key))
  }

  function Keys(calls: seq<Call>): set<Key> {
    set call | call in calls :: call.key
  }

  function Left(c: Config, h: seq<Request>): Balance
    requires h != []
  {
    Balance(Remaining(c, h, |h| - 1), h[|h| - 1].now)
  }

  // The decision on a call: the one its key's requests lead to on their own.
  predicate Granting(c: Config, calls: seq<Call>, call: Call) {
    var h := Past(calls, call.key) + [call.request];
    Admits(c, h, |h| - 1)
  }

  // One request on a bucket: refill, then charge if the cost is covered.
  function Taken(c: Config, b: Balance, q: Request): (Balance, bool) {
    var tokens := Min(c.Burst(), b.tokens + Earned(c, b.lastRefill, q.now));
    (Balance(Charged(tokens, q.cost), q.now), tokens >= q.cost)
  }

  lemma TakenLeaves(c: Config, h: seq<Request>, q: Request)
    ensures var b := if h != [] then Left(c, h) else Balance(c.Burst(), q.now);
            && Taken(c, b, q).0 == Left(c, h + [q])
            && Taken(c, b, q).1 == Admits(c, h + [q], |h|)
  {
    var n, g := |h|, h + [q];
    if n > 0 {
      PrefixDecides(c, h, g, n - 1);
    } else {
      EarnedNothing(c, q.now);
    }
  }

  lemma {:induction false} PastKeys(calls: seq<Call>, key: Key)
    ensures Past(calls, key) != [] <==> key in Keys(calls)
  {
    if calls != [] {
      var n := |calls| - 1;
      PastKeys(calls[..n], key);
      assert calls == calls[..n] + [calls[n]];
    }
  }

  lemma BalancesAppend(c: Config, calls: seq<Call>, call: Call)
    ensures var bs := Balances(c, calls);
            var b := if call.key in bs then bs[call.key] else Balance(c.Burst(), call.request.now);
            && (Taken(c, b, call.request).1 <==> Granting(c, calls, call))
            && Balances(c, calls + [call]) == bs[call.key := Taken(c, b, call.request).0]
  {
    hide Past, Left, Taken, Admits, Keys;
    TakenLeaves(c, Past(calls, call.key), call.request);
    var bs, all := Balances(c, calls), calls + [call];
    forall key
      ensures key in Balances(c, all) <==> Past(all, key) != []
      ensures key in bs <==> Past(calls, key) != []
      ensures Past(all, key) == if call.key == key then Past(calls, key) + [call.request] else Past(calls, key)
    {
      PastAppend(calls, call, key);
      PastKeys(calls, key);
      PastKeys(all, key);
    }
  }

  class Bucket {
    var tokens: real
    var lastRefill: real

    ghost function Value(): Balance
      reads this
    {
      Balance(tokens, lastRefill)
    }

    constructor (tokens: real, lastRefill: real)
      ensures Value() == Balance(tokens, lastRefill)
    {
      this.tokens := tokens;
      this.lastRefill := lastRefill;
    }

    // Refill, test and charge: the part of allow that touches only the bucket.
    method Take(config: Config, now: real, cost: real) returns (allowed: bool)
      modifies this
      ensures Value() == Taken(config, old(Value()), Request(now, cost)).0
      ensures allowed == Taken(config, old(Value()), Request(now, cost)).1
    {
      tokens := Min(config.Burst(), tokens + Earned(config, lastRefill, now));
      lastRefill := now;
      allowed := tokens >= cost;
      if allowed {
        tokens := tokens - cost;
      }
    }
  }

  class RateLimiter {
    const config: Config
    var buckets: map<Key, Bucket>
    ghost var calls: seq<Call>

    ghost predicate Valid()
      reads this, buckets.Values
    {
      && (forall key, key' | key in buckets && key' in buckets && key != key' ::
            buckets[key] != buckets[key'])
      && buckets.Keys == Balances(config, calls).Keys
      && (forall key | key in buckets :: buckets[key].Value() == Balances(config, calls)[key])
    }

    constructor (config: Config)
      ensures Valid() && this.config == config && calls == [] && buckets == map[]
    {
      this.config := config;
      buckets := map[];
      calls := [];
    }

    // The body of allow once the lock is held; now was read before taking it.
    method Allow(key: Key, now: real, cost: real := 1.0) returns (allowed: bool)
      requires Valid()
      modifies this, buckets.Values
      ensures Valid()
      ensures calls == old(calls) + [Call(key, Request(now, cost))]
      ensures allowed <==> Granting(config, old(calls), Call(key, Request(now, cost)))
      ensures buckets.Keys == old(buckets.Keys) + {key}
      ensures forall k | k in old(buckets) :: buckets[k] == old(buckets[k])
      ensures forall k | k in old(buckets) && k != key :: unchanged(buckets[k])
      ensures fresh(buckets.Values - old(buckets.Values))
    {
      hide Balances, Granting, Taken;
      BalancesAppend(config, calls, Call(key, Request(now, cost)));
      ghost var before := Balances(config, calls);
      var bucket: Bucket;
      if key !in buckets {
        bucket := new Bucket(config.Burst(), now);
        buckets := buckets[key := bucket];
      } else {
        bucket := buckets[key];
      }
      allowed := bucket.Take(config, now, cost);
      calls := calls + [Call(key, Request(now, cost))];
      assert Balances(config, calls) == before[key := bucket.Value()];
    }
  }
}
