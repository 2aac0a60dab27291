// Interleaved calls against calls made one after another.
module ServerSerial {
  import opened Wrappers
  import opened Seqs
  import opened Server
  import opened ServerThreads
  import Audit

  // The first n threads without an authenticated caller.
  function Unauthenticated(threads: seq<Thread>, n: nat): (ids: seq<nat>)
    requires n <= |threads|
    ensures Distinct(ids)
    ensures forall id: nat :: id in ids <==> id < n && !threads[id].call.verified.Returned?
  {
    if n == 0 then []
    else Unauthenticated(threads, n - 1) + if threads[n - 1].call.verified.Returned? then [] else [n - 1]
  }

  ghost predicate IsAnOrderOf(ids: seq<nat>, n: nat) {
    Distinct(ids) && forall id: nat :: id in ids <==> id < n
  }

  // The order of the limiter's lock; who does not need it comes last.
  function LockOrder(s: State): seq<nat> {
    s.taken + Unauthenticated(s.threads, |s.threads|)
  }

  lemma LockOrderHoldsAll(s: State)
    requires Orderly(s) && Settled(s)
    ensures IsAnOrderOf(LockOrder(s), |s.threads|) && Known(s.threads, LockOrder(s))
  {
    var others := Unauthenticated(s.threads, |s.threads|);
    forall id: nat
      ensures id in LockOrder(s) <==> id < |s.threads|
      ensures id in s.taken ==> id !in others
    {
      if id < |s.threads| {
        assert Placed(s, id);
        assert InPhase(s, id, Recorded) || InPhase(s, id, Lost);
      }
    }
    assert forall k: nat | k < |LockOrder(s)| :: LockOrder(s)[k] in LockOrder(s);
  }

  lemma LockOrderIsSerial(cfg: Config, s: State)
    requires Orderly(s) && Settled(s) && Serial(cfg, s.threads, s.taken) && Known(s.threads, LockOrder(s))
    ensures Serial(cfg, s.threads, LockOrder(s))
  {
    var order := LockOrder(s);
    forall k: nat | k < |order|
      ensures DecidedInOrder(cfg, s.threads, order, k)
    {
      if k < |s.taken| {
        assert DecidedInOrder(cfg, s.threads, s.taken, k);
        assert order[..k] == s.taken[..k];
      } else {
        var id := order[k];
        assert id in Unauthenticated(s.threads, |s.threads|);
        assert Placed(s, id);
      }
    }
  }

  // ---- The records of a serial run ----

  function HasEntry(cfg: Config, threads: seq<Thread>): nat -> bool {
    (id: nat) => id < |threads| && EntryOf(cfg, threads[id]).Some?
  }

  function EntryAt(cfg: Config, threads: seq<Thread>): nat -> Audit.Fields {
    (id: nat) => if HasEntry(cfg, threads)(id) then EntryOf(cfg, threads[id]).value else map[]
  }

  function EntriesAt(cfg: Config, threads: seq<Thread>): nat -> seq<Audit.Fields> {
    (id: nat) => if HasEntry(cfg, threads)(id) then [EntryAt(cfg, threads)(id)] else []
  }

  lemma {:induction false} SerialRunLogs(cfg: Config, threads: seq<Thread>, ids: seq<nat>, k: nat)
    requires Known(threads, ids) && Serial(cfg, threads, ids) && k <= |ids|
    ensures Logged(cfg, CallsOf(threads, ids[..k])) == FlatMap(ids[..k], EntriesAt(cfg, threads))
  {
    hide RecordOf, Passes;
    if k == 0 {
      assert CallsOf(threads, ids[..k]) == [] && ids[..k] == [];
    } else {
      hide Serial;
      SerialRunLogs(cfg, threads, ids, k - 1);
      OneMoreLogged(cfg, threads, ids, k - 1);
    }
  }

  lemma OneMoreLogged(cfg: Config, threads: seq<Thread>, ids: seq<nat>, k: nat)
    requires Known(threads, ids) && Serial(cfg, threads, ids) && k < |ids|
    requires Logged(cfg, CallsOf(threads, ids[..k])) == FlatMap(ids[..k], EntriesAt(cfg, threads))
    ensures Logged(cfg, CallsOf(threads, ids[..k + 1])) == FlatMap(ids[..k + 1], EntriesAt(cfg, threads))
  {
    hide Logged, FlatMap, EntriesAt, RecordOf, Passes;
    assert DecidedInOrder(cfg, threads, ids, k);
    hide Serial;
    var front, id := ids[..k], ids[k];
    var before := CallsOf(threads, front);
    assert CallsOf(threads, ids[..k + 1]) == before + [threads[id].call];
    assert ids[..k + 1] == front + [id];
    hide CallsOf;
    LoggedAppend(cfg, before, threads[id].call);
    OneMoreEntry(cfg, threads, front, id);
  }

  lemma OneMoreEntry(cfg: Config, threads: seq<Thread>, front: seq<nat>, id: nat)
    requires id < |threads|
    ensures var f := EntriesAt(cfg, threads);
            FlatMap<nat, Audit.Fields>(front + [id], f)
              == FlatMap<nat, Audit.Fields>(front, f) + OptionSeq(RecordOf(cfg, threads[id].call, threads[id].passes))
  {
    hide RecordOf;
    var f := EntriesAt(cfg, threads);
    FlatMapConcat<nat, Audit.Fields>(front, [id], f);
    assert [id][1..] == [];
    assert FlatMap<nat, Audit.Fields>([id], f) == f(id);
    var o := EntryOf(cfg, threads[id]);
    assert HasEntry(cfg, threads)(id) == o.Some? && (o.Some? ==> EntryAt(cfg, threads)(id) == o.value);
  }

  // Once every call of an interleaving has ended, there is an order of the calls
  // such that dispatching them one after another in it makes the same decisions
  // and leaves the same records, in some order.
  lemma EveryInterleavingIsSerial(cfg: Config, h: Audit.Hash, lines: seq<Audit.Line>, open: bool, prev: string,
                                  steps: seq<Step>)
    returns (order: seq<nat>)
    requires Linked(h, Start(lines, open, prev)) && Settled(Execute(cfg, h, Start(lines, open, prev), steps))
    ensures var end := Execute(cfg, h, Start(lines, open, prev), steps);
            && IsAnOrderOf(order, |end.threads|)
            && Known(end.threads, order) && Serial(cfg, end.threads, order)
            && multiset(Audit.Payloads(end.lines))
                 == multiset(Audit.Payloads(lines)) + multiset(Logged(cfg, CallsOf(end.threads, order)))
  {
    RunKeepsSound(cfg, h, Start(lines, open, prev), steps, Audit.Payloads(lines));
    var end := Execute(cfg, h, Start(lines, open, prev), steps);
    order := LockOrder(end);
    LockOrderHoldsAll(end);
    LockOrderIsSerial(cfg, end);
    EntriesAreThoseOfTheFile(cfg, end, order, Audit.Payloads(lines), Audit.Payloads(end.lines));
    SerialRunLogs(cfg, end.threads, order, |order|);
    assert order[..|order|] == order;
  }

  lemma EntriesAreThoseOfTheFile(cfg: Config, s: State, order: seq<nat>, held: seq<Audit.Fields>, all: seq<Audit.Fields>)
    requires Orderly(s) && AllAccounted(cfg, s) && Settled(s) && IsAnOrderOf(order, |s.threads|)
    requires Holds(cfg, s, held, all)
    ensures multiset(all) == multiset(held) + multiset(FlatMap(order, EntriesAt(cfg, s.threads)))
  {
    var has, entry := HasEntry(cfg, s.threads), EntryAt(cfg, s.threads);
    hide EntryOf;
    FlatMapSelects<nat, Audit.Fields>(order, EntriesAt(cfg, s.threads), has, entry);
    FilterKeepsDistinct<nat>(order, has);
    forall id: nat ensures id in Filter(order, has) <==> id in s.appended {
      FilterHolds<nat>(order, has, id);
      if id < |s.threads| {
        assert Placed(s, id) && Accounted(cfg, s.threads[id]);
        assert InPhase(s, id, Recorded) || InPhase(s, id, Lost);
      }
    }
    DistinctPermutes<nat>(Filter(order, has), s.appended);
    MapPermutes<nat, Audit.Fields>(Filter(order, has), s.appended, entry);
    var tail := all[|held|..];
    assert all == held + tail;
    assert tail == Map(s.appended, entry);
  }
}
