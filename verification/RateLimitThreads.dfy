// Threads on one limiter. A thread reads the clock first and takes the lock
// later, so readings may reach the bucket out of order; every interleaving is a
// run of the machine below, and the log is the order of lock acquisitions.
module RateLimitThreads {
  import opened RateLimit

  // A call that has been through the lock, and the time at which it took it.
  datatype Entry = Entry(call: Call, entered: real)

  datatype State = State(clock: real, waiting: map<nat, Call>, log: seq<Entry>)

  datatype Step =
    | Pass(time: real)
    | ReadClock(thread: nat, key: Key, cost: real)
    | TakeLock(thread: nat)

  // A step that its thread cannot take changes nothing.
  function Apply(s: State, step: Step): State {
    match step
    case Pass(time) =>
      if time < 0.0 then s else s.(clock := s.clock + time)
    case ReadClock(thread, key, cost) =>
      if thread in s.waiting then s
      else s.(waiting := s.waiting[thread := Call(key, Request(s.clock, cost))])
    case TakeLock(thread) =>
      if thread !in s.waiting then s
      else s.(waiting := s.waiting - {thread}, log := s.log + [Entry(s.waiting[thread], s.clock)])
  }

  function Execute(s: State, steps: seq<Step>): State
    decreases |steps|
  {
    if steps == [] then s else Execute(Apply(s, steps[0]), steps[1..])
  }

  function Start(clock: real): State {
    State(clock, map[], [])
  }

  predicate CostsNonNegativeIn(steps: seq<Step>) {
    forall i | 0 <= i < |steps| && steps[i].ReadClock? :: steps[i].cost >= 0.0
  }

  // No reading lies ahead of the clock, nor a lock time before its reading.
  ghost predicate Sound(s: State) {
    && (forall t | t in s.waiting ::
          s.waiting[t].request.cost >= 0.0 && s.waiting[t].request.now <= s.clock)
    && (forall i | 0 <= i < |s.log| ::
          s.log[i].call.request.cost >= 0.0
          && s.log[i].call.request.now <= s.log[i].entered <= s.clock)
    && (forall i, j | 0 <= i < j < |s.log| :: s.log[i].entered <= s.log[j].entered)
  }

  lemma {:induction false} RunsAreSound(s: State, steps: seq<Step>)
    requires Sound(s) && CostsNonNegativeIn(steps)
    ensures Sound(Execute(s, steps))
    decreases |steps|
  {
    if steps != [] {
      assert steps[0].ReadClock? ==> steps[0].cost >= 0.0;
      RunsAreSound(Apply(s, steps[0]), steps[1..]);
    }
  }

  // The entries of one key, and what the limiter makes of them.
  function OnKey(log: seq<Entry>, key: Key): (es: seq<Entry>)
    ensures forall e <- es :: e in log && e.call.key == key
  {
    if log == [] then []
    else (if log[0].call.key == key then [log[0]] else []) + OnKey(log[1..], key)
  }

  function Requests(es: seq<Entry>): seq<Request> {
    seq(|es|, i requires 0 <= i < |es| => es[i].call.request)
  }

  function Calls(log: seq<Entry>): seq<Call> {
    seq(|log|, i requires 0 <= i < |log| => log[i].call)
  }

  lemma {:induction false} OnKeyAppend(log: seq<Entry>, e: Entry, key: Key)
    ensures OnKey(log + [e], key) == OnKey(log, key) + if e.call.key == key then [e] else []
  {
    var all := log + [e];
    if log == [] {
      assert all[1..] == [];
    } else {
      assert all[1..] == log[1..] + [e];
      OnKeyAppend(log[1..], e, key);
    }
  }

  // The requests the limiter object keeps for a key are exactly the key's log entries.
  lemma {:induction false} LogMatchesLimiter(log: seq<Entry>, key: Key)
    ensures Past(Calls(log), key) == Requests(OnKey(log, key))
    decreases |log|
  {
    if log != [] {
      var front, last := log[..|log| - 1], log[|log| - 1];
      assert log == front + [last];
      LogMatchesLimiter(front, key);
      OnKeyAppend(front, last, key);
      assert Calls(log) == Calls(front) + [last.call];
      PastAppend(Calls(front), last.call, key);
    }
  }

  lemma InterleavingIsWithinAllowance(c: Config, start: real, steps: seq<Step>, key: Key, from: real, to: real)
    requires c.ratePerMinute >= 0 && c.burst >= 0 && from <= to && CostsNonNegativeIn(steps)
    ensures var h := Past(Calls(Execute(Start(start), steps).log), key);
            AdmittedInWindow(c, h, from, to, |h|) <= c.Burst() + Earned(c, from, to)
  {
    var log := Execute(Start(start), steps).log;
    RunsAreSound(Start(start), steps);
    LogMatchesLimiter(log, key);
    var es := OnKey(log, key);
    forall i: nat | i < |es|
      ensures Requests(es)[i].cost >= 0.0
    {
      assert es[i] in log;
    }
    WindowIsWithinAllowance(c, Requests(es), from, to, |es|);
  }

  // For every interleaving, what one key is granted for clock readings inside
  // any window is at most the burst and a sixtieth of the rate per second.
  lemma EveryInterleavingIsBounded(c: Config, start: real, steps: seq<Step>, key: Key, from: real, to: real)
    requires c.ratePerMinute >= 0 && c.burst >= 0 && from <= to && CostsNonNegativeIn(steps)
    ensures var h := Past(Calls(Execute(Start(start), steps).log), key);
            AdmittedInWindow(c, h, from, to, |h|) <= c.burst as real + (to - from) * c.ratePerMinute as real / 60.0
  {
    InterleavingIsWithinAllowance(c, start, steps, key, from, to);
    AllowanceIs(c, from, to);
    hide *;
  }

  // ---- Windows of lock times instead of clock readings ----

  predicate EntersIn(e: Entry, from: real, to: real) {
    from <= e.entered <= to
  }

  // Those that take the lock in the window have read the clock at most delay earlier.
  predicate DelayedAtMost(es: seq<Entry>, from: real, to: real, delay: real) {
    forall e <- es :: EntersIn(e, from, to) ==> e.entered - e.call.request.now <= delay
  }

  // The cost granted to those of the first n entries that take the lock in the window.
  function AdmittedByLockTime(c: Config, es: seq<Entry>, from: real, to: real, n: nat): real
    requires n <= |es|
  {
    if n == 0 then 0.0
    else AdmittedByLockTime(c, es, from, to, n - 1) +
         (if EntersIn(es[n - 1], from, to) then Charge(c, Requests(es), n - 1) else 0.0)
  }

  lemma {:induction false} LockTimeWithinReadings(c: Config, es: seq<Entry>, from: real, to: real, delay: real, n: nat)
    requires n <= |es|
    requires AreSound(es)
    requires DelayedAtMost(es, from, to, delay)
    ensures AdmittedByLockTime(c, es, from, to, n)
         <= AdmittedInWindow(c, Requests(es), from - delay, to, n)
  {
    if n > 0 {
      LockTimeWithinReadings(c, es, from, to, delay, n - 1);
      assert es[n - 1] in es;
      assert Requests(es)[n - 1] == es[n - 1].call.request;
    }
  }

  // If threads wait at most delay between clock and lock, a window of lock
  // times is bounded as if it were that much longer.
  lemma LockTimeBound(c: Config, start: real, steps: seq<Step>, key: Key, from: real, to: real, delay: real)
    requires c.ratePerMinute >= 0 && c.burst >= 0 && from <= to && delay >= 0.0 && CostsNonNegativeIn(steps)
    requires DelayedAtMost(OnKey(Execute(Start(start), steps).log, key), from, to, delay)
    ensures var es := OnKey(Execute(Start(start), steps).log, key);
            AdmittedByLockTime(c, es, from, to, |es|) <= c.Burst() + Earned(c, from - delay, to)
  {
    var es := OnKey(Execute(Start(start), steps).log, key);
    KeyEntriesAreSound(start, steps, key);
    hide *;
    WindowOfKey(c, start, steps, key, from - delay, to);
    LockTimeWithinReadings(c, es, from, to, delay, |es|);
  }

  predicate AreSound(es: seq<Entry>) {
    forall e <- es :: e.call.request.cost >= 0.0 && e.call.request.now <= e.entered
  }

  lemma KeyEntriesAreSound(start: real, steps: seq<Step>, key: Key)
    requires CostsNonNegativeIn(steps)
    ensures AreSound(OnKey(Execute(Start(start), steps).log, key))
  {
    var log := Execute(Start(start), steps).log;
    RunsAreSound(Start(start), steps);
    hide Execute, OnKey;
    forall e <- OnKey(log, key)
      ensures e.call.request.cost >= 0.0 && e.call.request.now <= e.entered
    {
      assert e in log;
    }
  }

  lemma WindowOfKey(c: Config, start: real, steps: seq<Step>, key: Key, from: real, to: real)
    requires c.ratePerMinute >= 0 && c.burst >= 0 && from <= to && CostsNonNegativeIn(steps)
    ensures var es := OnKey(Execute(Start(start), steps).log, key);
            |Requests(es)| == |es|
            && AdmittedInWindow(c, Requests(es), from, to, |es|) <= c.Burst() + Earned(c, from, to)
  {
    var log := Execute(Start(start), steps).log;
    InterleavingIsWithinAllowance(c, start, steps, key, from, to);
    LogMatchesLimiter(log, key);
    assert |Requests(OnKey(log, key))| == |OnKey(log, key)|;
    hide Execute, OnKey, AdmittedInWindow, Earned, Past;
  }

  // ---- When the extension can be dropped ----

  predicate WaitsAtMost(delay: real, start: real, steps: seq<Step>, key: Key) {
    forall e <- OnKey(Execute(Start(start), steps).log, key) :: e.entered - e.call.request.now <= delay
  }

  // What the key is granted in a window of lock times is burst plus refill at most.
  predicate WithinBound(c: Config, start: real, steps: seq<Step>, key: Key, from: real, to: real) {
    var es := OnKey(Execute(Start(start), steps).log, key);
    AdmittedByLockTime(c, es, from, to, |es|) <= c.Burst() + Earned(c, from, to)
  }

  // In every run whose threads wait at most delay, every window of lock times is
  // within the bound.
  ghost predicate AlwaysWithinBound(c: Config, delay: real) {
    forall start: real, steps: seq<Step>, key: Key, from: real, to: real |
      from <= to && CostsNonNegativeIn(steps) && WaitsAtMost(delay, start, steps, key) ::
      WithinBound(c, start, steps, key, from, to)
  }

  lemma {:induction false} EmptyBurstGrantsNothing(c: Config, es: seq<Entry>, from: real, to: real, n: nat)
    requires n <= |es| && c.burst == 0 && AreSound(es)
    ensures AdmittedByLockTime(c, es, from, to, n) == 0.0
  {
    if n > 0 {
      EmptyBurstGrantsNothing(c, es, from, to, n - 1);
      assert es[n - 1] in es && Requests(es)[n - 1] == es[n - 1].call.request;
      assert Refilled(c, Requests(es), n - 1) <= 0.0;
    }
  }

  lemma NoRefillWithoutRate(c: Config, from: real, to: real)
    requires c.ratePerMinute == 0
    ensures Earned(c, from, to) == 0.0
  {
    assert c.Rate() == 0.0;
  }

  lemma BoundNeedsNoExtension(c: Config, delay: real, start: real, steps: seq<Step>, key: Key, from: real, to: real)
    requires c.ratePerMinute >= 0 && c.burst >= 0 && delay >= 0.0
    requires delay == 0.0 || c.ratePerMinute == 0 || c.burst == 0
    requires from <= to && CostsNonNegativeIn(steps) && WaitsAtMost(delay, start, steps, key)
    ensures WithinBound(c, start, steps, key, from, to)
  {
    var es := OnKey(Execute(Start(start), steps).log, key);
    LockTimeBound(c, start, steps, key, from, to, delay);
    hide AdmittedByLockTime, OnKey, Execute;
    if c.burst == 0 {
      KeyEntriesAreSound(start, steps, key);
      EmptyBurstGrantsNothing(c, es, from, to, |es|);
      EarnedMonotone(c, from, from, from, to);
      EarnedNothing(c, from);
      hide Earned;
    } else if c.ratePerMinute == 0 {
      NoRefillWithoutRate(c, from - delay, to);
      NoRefillWithoutRate(c, from, to);
      hide Earned;
    }
  }

  // One thread reads the clock and stalls for the whole delay; a second comes
  // when the first takes the lock. Both are granted at the same instant.
  function StalledRun(key: Key, delay: real, first: real, second: real): seq<Step> {
    [ReadClock(1, key, first), Pass(delay), TakeLock(1), ReadClock(2, key, second), TakeLock(2)]
  }

  lemma StalledRunLog(key: Key, delay: real, first: real, second: real)
    requires delay >= 0.0
    ensures OnKey(Execute(Start(0.0), StalledRun(key, delay, first, second)).log, key)
         == [Entry(Call(key, Request(0.0, first)), delay), Entry(Call(key, Request(delay, second)), delay)]
  {
    var steps := StalledRun(key, delay, first, second);
    var s0 := Start(0.0);
    var s1, r1 := Apply(s0, steps[0]), steps[1..];
    var s2, r2 := Apply(s1, r1[0]), r1[1..];
    var s3, r3 := Apply(s2, r2[0]), r2[1..];
    var s4, r4 := Apply(s3, r3[0]), r3[1..];
    var s5 := Apply(s4, r4[0]);
    assert r4[1..] == [] && Execute(s4, r4) == s5;
    assert Execute(s3, r3) == s5 && Execute(s2, r2) == s5 && Execute(s1, r1) == s5;
    var a, b := Entry(Call(key, Request(0.0, first)), delay), Entry(Call(key, Request(delay, second)), delay);
    assert s3.log == [a] && s5.log == [a, b];
    OnKeyAppend([], a, key);
    OnKeyAppend([a], b, key);
    assert [] + [a] == [a] && [a] + [b] == [a, b];
  }

  lemma StalledRunOverdraws(c: Config, delay: real, es: seq<Entry>, key: Key)
    requires c.ratePerMinute > 0 && c.burst > 0 && delay > 0.0
    requires var second := Min(c.Burst(), Earned(c, 0.0, delay));
             es == [Entry(Call(key, Request(0.0, c.Burst())), delay), Entry(Call(key, Request(delay, second)), delay)]
    ensures AdmittedByLockTime(c, es, delay, delay, 2) > c.Burst() + Earned(c, delay, delay)
  {
    var h := Requests(es);
    var second := Min(c.Burst(), Earned(c, 0.0, delay));
    assert h == [Request(0.0, c.Burst()), Request(delay, second)];
    EarnedNothing(c, delay);
    assert Earned(c, 0.0, delay) == delay * c.Rate() > 0.0;
    hide Earned;
    assert Refilled(c, h, 0) == c.Burst() && Charge(c, h, 0) == c.Burst();
    assert Refilled(c, h, 1) == second && Charge(c, h, 1) == second;
    assert AdmittedByLockTime(c, es, delay, delay, 1) == c.Burst();
  }

  lemma StallBreaksTheBound(c: Config, delay: real)
    requires c.ratePerMinute > 0 && c.burst > 0 && delay > 0.0
    ensures !AlwaysWithinBound(c, delay)
  {
    var second := Min(c.Burst(), Earned(c, 0.0, delay));
    var key: Key := [];
    var steps := StalledRun(key, delay, c.Burst(), second);
    assert second >= 0.0 by {
      assert Earned(c, 0.0, delay) == delay * c.Rate() > 0.0;
    }
    StalledRunLog(key, delay, c.Burst(), second);
    StalledRunOverdraws(c, delay, OnKey(Execute(Start(0.0), steps).log, key), key);
    hide Execute, OnKey, AdmittedByLockTime, Earned;
    assert CostsNonNegativeIn(steps) && WaitsAtMost(delay, 0.0, steps, key);
    assert !WithinBound(c, 0.0, steps, key, delay, delay);
  }

  // Windows of lock times keep the bound in every run exactly when threads never
  // wait, nothing refills, or nothing is granted at all.
  lemma LockTimeBoundIff(c: Config, delay: real)
    requires c.ratePerMinute >= 0 && c.burst >= 0 && delay >= 0.0
    ensures AlwaysWithinBound(c, delay) <==> delay == 0.0 || c.ratePerMinute == 0 || c.burst == 0
  {
    if delay == 0.0 || c.ratePerMinute == 0 || c.burst == 0 {
      hide WithinBound, WaitsAtMost, CostsNonNegativeIn;
      forall start: real, steps: seq<Step>, key: Key, from: real, to: real |
        from <= to && CostsNonNegativeIn(steps) && WaitsAtMost(delay, start, steps, key)
        ensures WithinBound(c, start, steps, key, from, to)
      {
        BoundNeedsNoExtension(c, delay, start, steps, key, from, to);
      }
    } else {
      StallBreaksTheBound(c, delay);
    }
  }
}
