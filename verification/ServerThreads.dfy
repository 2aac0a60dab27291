// Calls of the dispatcher in worker threads. A thread reads the clock, goes
// through the limiter's lock, ends its tool and appends its record under the
// logger's lock; the steps of different threads interleave freely, so neither
// the order of clock readings nor that of records is the order of the calls.
module ServerThreads {
  import opened Wrappers
  import opened Seqs
  import opened Text
  import opened PyText
  import opened Server
  import ServerRuns
  import Audit
  import RateLimit

  // Waiting: authenticated, the clock read, and before the limiter's lock.
  // Running: the limiter has decided; who is not authenticated gets here at once.
  // Finished: the record is built, and before the logger's lock.
  // Recorded: the record is in the file. Lost: it could not be encoded.
  datatype Phase = Waiting | Running | Finished | Recorded | Lost

  datatype Thread = Thread(call: Call, passes: bool, phase: Phase)

  // Threads are numbered in the order in which they begin; taken and appended
  // are the orders in which they get the two locks.
  datatype State = State(
    threads: seq<Thread>,
    taken: seq<nat>,
    appended: seq<nat>,
    lines: seq<Audit.Line>,
    open: bool,
    prevHash: string)

  datatype Step =
    | Begin(call: Call)
    | TakeLock(id: nat)
    | Finish(id: nat)
    | Append(id: nat)

  function Start(lines: seq<Audit.Line>, open: bool, prevHash: string): State {
    State([], [], [], lines, open, prevHash)
  }

  predicate Known(threads: seq<Thread>, ids: seq<nat>) {
    forall i | 0 <= i < |ids| :: ids[i] < |threads|
  }

  predicate InPhase(s: State, id: nat, phase: Phase) {
    id < |s.threads| && s.threads[id].phase == phase
  }

  function CallsOf(threads: seq<Thread>, ids: seq<nat>): seq<Call>
    requires Known(threads, ids)
  {
    seq(|ids|, i requires 0 <= i < |ids| => threads[ids[i]].call)
  }

  // The record of a thread, given the limiter's decision on it.
  function EntryOf(cfg: Config, thread: Thread): Option<Audit.Fields> {
    RecordOf(cfg, thread.call, thread.passes)
  }

  // A step that its thread cannot take changes nothing.
  function Apply(cfg: Config, h: Audit.Hash, s: State, step: Step): State
    requires Known(s.threads, s.taken)
  {
    match step
    case Begin(call) =>
      s.(threads := s.threads + [Thread(call, false, if call.verified.Returned? then Waiting else Running)])
    case TakeLock(id) =>
      if !InPhase(s, id, Waiting) then s
      else
        var call := s.threads[id].call;
        s.(threads := s.threads[id := Thread(call, Passes(cfg, CallsOf(s.threads, s.taken), call), Running)],
           taken := s.taken + [id])
    case Finish(id) =>
      if !InPhase(s, id, Running) then s
      else
        var phase := if EntryOf(cfg, s.threads[id]).Some? then Finished else Lost;
        s.(threads := s.threads[id := s.threads[id].(phase := phase)])
    case Append(id) =>
      if !InPhase(s, id, Finished) || EntryOf(cfg, s.threads[id]).None? then s
      else
        var sealed := Audit.Sealed(h, EntryOf(cfg, s.threads[id]).value, s.prevHash);
        State(s.threads[id := s.threads[id].(phase := Recorded)],
              s.taken,
              s.appended + [id],
              Audit.AppendRecord(s.lines, s.open, sealed),
              false,
              h(Audit.Body(sealed)))
  }

  // ---- The threads ----

  // Who has been through which lock.
  predicate Placed(s: State, id: nat)
    requires id < |s.threads|
  {
    var t := s.threads[id];
    && (id in s.taken <==> t.call.verified.Returned? && t.phase != Waiting)
    && (id in s.appended <==> t.phase == Recorded)
    && (t.phase == Waiting ==> t.call.verified.Returned?)
    && (t.passes ==> id in s.taken)
  }

  predicate Orderly(s: State) {
    && Known(s.threads, s.taken) && Distinct(s.taken)
    && Known(s.threads, s.appended) && Distinct(s.appended)
    && forall id: nat | id < |s.threads| :: Placed(s, id)
  }

  // Only what cannot be encoded is lost.
  predicate Accounted(cfg: Config, t: Thread) {
    && (t.phase == Finished || t.phase == Recorded ==> EntryOf(cfg, t).Some?)
    && (t.phase == Lost ==> EntryOf(cfg, t).None?)
  }

  predicate AllAccounted(cfg: Config, s: State) {
    forall id: nat | id < |s.threads| :: Accounted(cfg, s.threads[id])
  }

  // The k-th of these threads got the decision that the dispatcher would make if
  // their calls came one at a time in this order.
  predicate DecidedInOrder(cfg: Config, threads: seq<Thread>, ids: seq<nat>, k: nat)
    requires k < |ids| && Known(threads, ids)
  {
    var t := threads[ids[k]];
    t.passes == Passes(cfg, CallsOf(threads, ids[..k]), t.call)
  }

  predicate Serial(cfg: Config, threads: seq<Thread>, ids: seq<nat>)
    requires Known(threads, ids)
  {
    forall k: nat | k < |ids| :: DecidedInOrder(cfg, threads, ids, k)
  }

  lemma StepKeepsPlaced(cfg: Config, h: Audit.Hash, s: State, step: Step, id: nat)
    requires Orderly(s) && id < |Apply(cfg, h, s, step).threads|
    ensures Placed(Apply(cfg, h, s, step), id)
  {
    hide Passes, EntryOf, CallsOf, Audit.Sealed, Audit.AppendRecord, Audit.Body;
    if id < |s.threads| {
      var next := Apply(cfg, h, s, step);
      assert Placed(s, id);
      assert step.Begin? || step.id != id || next == s ==> next.threads[id] == s.threads[id];
      assert id in next.taken <==> id in s.taken || (next.taken != s.taken && id == step.id);
      assert id in next.appended <==> id in s.appended || (next.appended != s.appended && id == step.id);
    } else {
      assert Known(s.threads, s.taken) && Known(s.threads, s.appended);
      assert id !in s.taken && id !in s.appended;
    }
  }

  lemma StepKeepsOrderly(cfg: Config, h: Audit.Hash, s: State, step: Step)
    requires Orderly(s)
    ensures Orderly(Apply(cfg, h, s, step))
  {
    hide Passes, EntryOf, CallsOf, Audit.Sealed, Audit.AppendRecord, Audit.Body;
    var next := Apply(cfg, h, s, step);
    forall id: nat | id < |next.threads|
      ensures Placed(next, id)
    {
      StepKeepsPlaced(cfg, h, s, step, id);
    }
    assert !step.Begin? && step.id < |s.threads| ==> Placed(s, step.id);
  }

  lemma StepKeepsAccounted(cfg: Config, h: Audit.Hash, s: State, step: Step)
    requires Orderly(s) && AllAccounted(cfg, s)
    ensures AllAccounted(cfg, Apply(cfg, h, s, step))
  {
    hide Passes, CallsOf, Audit.Sealed, Audit.AppendRecord, Audit.Body, RecordOf;
  }

  lemma StepKeepsSerial(cfg: Config, h: Audit.Hash, s: State, step: Step)
    requires Orderly(s) && Serial(cfg, s.threads, s.taken) && Orderly(Apply(cfg, h, s, step))
    ensures var next := Apply(cfg, h, s, step); Serial(cfg, next.threads, next.taken)
  {
    hide Passes, EntryOf, Audit.Sealed, Audit.AppendRecord, Audit.Body;
    var next := Apply(cfg, h, s, step);
    forall k: nat | k < |next.taken|
      ensures DecidedInOrder(cfg, next.threads, next.taken, k)
    {
      assert next.taken[..k] == s.taken[..k];
      assert CallsOf(next.threads, next.taken[..k]) == CallsOf(s.threads, s.taken[..k]);
      if k < |s.taken| {
        assert DecidedInOrder(cfg, s.threads, s.taken, k);
        assert Placed(s, s.taken[k]);
      } else {
        assert s.taken[..k] == s.taken;
      }
    }
  }

  // ---- The file ----

  // The file holds what it held at the start, and then the records of the
  // threads in the order in which they got the logger's lock.
  predicate Holds(cfg: Config, s: State, held: seq<Audit.Fields>, all: seq<Audit.Fields>) {
    && |all| == |held| + |s.appended| && held <= all
    && forall i | 0 <= i < |s.appended| ::
         s.appended[i] < |s.threads| && EntryOf(cfg, s.threads[s.appended[i]]) == Some(all[|held| + i])
  }

  ghost predicate Linked(h: Audit.Hash, s: State) {
    Audit.IsIntact(h, s.lines) && Audit.LoadLastHash(s.lines) == Ok(s.prevHash) && !Audit.Spoils(s.lines, s.open)
  }

  lemma EntryIsUnchained(cfg: Config, t: Thread)
    ensures EntryOf(cfg, t).Some? ==> Audit.Unchained(EntryOf(cfg, t).value)
  {
    FieldsTell(cfg, t.call, Attempt(cfg.inventory, t.call, t.passes));
    hide FieldsFor, Attempt;
  }

  lemma StepKeepsLinked(cfg: Config, h: Audit.Hash, s: State, step: Step)
    requires Orderly(s) && Linked(h, s)
    ensures var next := Apply(cfg, h, s, step);
            && Linked(h, next)
            && Audit.Payloads(next.lines)
                 == Audit.Payloads(s.lines)
                    + if next.appended == s.appended then [] else [EntryOf(cfg, s.threads[step.id]).value]
  {
    hide Passes, EntryOf, CallsOf, Orderly;
    hide Audit.IsIntact, Audit.LoadLastHash, Audit.Sealed, Audit.Payloads, Audit.Body, Audit.AppendRecord;
    if step.Append? && InPhase(s, step.id, Finished) && EntryOf(cfg, s.threads[step.id]).Some? {
      var fields := EntryOf(cfg, s.threads[step.id]).value;
      EntryIsUnchained(cfg, s.threads[step.id]);
      Audit.AppendKeepsIntactIff(h, s.lines, s.open, fields, s.prevHash);
      Audit.AppendAddsPayload(h, s.lines, s.open, fields, s.prevHash);
    }
  }

  lemma StepKeepsHeld(cfg: Config, h: Audit.Hash, s: State, step: Step, held: seq<Audit.Fields>, all: seq<Audit.Fields>)
    requires Orderly(s) && Holds(cfg, s, held, all)
    ensures var next := Apply(cfg, h, s, step);
            Holds(cfg, next, held,
                  all + if next.appended == s.appended then [] else [EntryOf(cfg, s.threads[step.id]).value])
  {
    hide Passes, RecordOf, CallsOf, Audit.Sealed, Audit.AppendRecord, Audit.Body;
    var next := Apply(cfg, h, s, step);
    forall i | 0 <= i < |s.appended|
      ensures EntryOf(cfg, next.threads[s.appended[i]]) == EntryOf(cfg, s.threads[s.appended[i]])
    {
      assert Placed(s, s.appended[i]);
    }
  }

  // ---- Every interleaving ----

  ghost predicate Sound(cfg: Config, h: Audit.Hash, s: State, held: seq<Audit.Fields>) {
    && Orderly(s) && AllAccounted(cfg, s) && Serial(cfg, s.threads, s.taken)
    && Linked(h, s) && Holds(cfg, s, held, Audit.Payloads(s.lines))
  }

  lemma StepKeepsSound(cfg: Config, h: Audit.Hash, s: State, step: Step, held: seq<Audit.Fields>)
    requires Sound(cfg, h, s, held)
    ensures Sound(cfg, h, Apply(cfg, h, s, step), held)
  {
    StepKeepsOrderly(cfg, h, s, step);
    StepKeepsAccounted(cfg, h, s, step);
    StepKeepsSerial(cfg, h, s, step);
    StepKeepsLinked(cfg, h, s, step);
    StepKeepsHeld(cfg, h, s, step, held, Audit.Payloads(s.lines));
    hide *;
    hide Sound;
  }

  function Execute(cfg: Config, h: Audit.Hash, s: State, steps: seq<Step>): State
    requires Orderly(s)
    decreases |steps|
  {
    if steps == [] then s
    else
      StepKeepsOrderly(cfg, h, s, steps[0]);
      Execute(cfg, h, Apply(cfg, h, s, steps[0]), steps[1..])
  }

  lemma {:induction false} RunKeepsSound(cfg: Config, h: Audit.Hash, s: State, steps: seq<Step>, held: seq<Audit.Fields>)
    requires Sound(cfg, h, s, held)
    ensures Sound(cfg, h, Execute(cfg, h, s, steps), held)
    decreases |steps|
  {
    if steps != [] {
      StepKeepsSound(cfg, h, s, steps[0], held);
      RunKeepsSound(cfg, h, Apply(cfg, h, s, steps[0]), steps[1..], held);
    }
  }

  // On a file that verifies and does not end in an unfinished line, every
  // interleaving of calls leaves a file that verifies and a memory equal to
  // what a fresh logger would load. Behind what the file held stand the records
  // of the threads that got the logger's lock, each once and each with its own
  // call and the decision it got; that decision is the one that the dispatcher
  // would have made for calls coming one at a time in the order of the
  // limiter's lock. Only calls that cannot be written are without a record.
  lemma EveryInterleavingKeepsTheRecords(cfg: Config, h: Audit.Hash, lines: seq<Audit.Line>, open: bool, prev: string,
                                         steps: seq<Step>)
    requires Linked(h, Start(lines, open, prev))
    ensures var end := Execute(cfg, h, Start(lines, open, prev), steps);
            && Linked(h, end)
            && Holds(cfg, end, Audit.Payloads(lines), Audit.Payloads(end.lines))
            && Orderly(end) && Serial(cfg, end.threads, end.taken)
            && (forall id: nat | InPhase(end, id, Recorded) :: ServerRuns.Recordable(cfg, end.threads[id].call))
            && (forall id: nat | InPhase(end, id, Lost) :: !ServerRuns.Recordable(cfg, end.threads[id].call))
  {
    var start := Start(lines, open, prev);
    RunKeepsSound(cfg, h, start, steps, Audit.Payloads(lines));
    var end := Execute(cfg, h, start, steps);
    forall id: nat | id < |end.threads|
      ensures EntryOf(cfg, end.threads[id]).Some? <==> ServerRuns.Recordable(cfg, end.threads[id].call)
    {
      ServerRuns.RecordedIff(cfg, end.threads[id].call, end.threads[id].passes);
    }
    hide Linked, Holds, Orderly, Serial, EntryOf, Execute, ServerRuns.Recordable;
    forall id: nat | id < |end.threads|
      ensures Accounted(cfg, end.threads[id])
    {
    }
  }

  predicate Settled(s: State) {
    forall id: nat | id < |s.threads| :: InPhase(s, id, Recorded) || InPhase(s, id, Lost)
  }

  // Once every call has ended, those with a record are those that can be written.
  lemma SettledRunsRecordWhatTheyCan(cfg: Config, h: Audit.Hash, lines: seq<Audit.Line>, open: bool, prev: string,
                                     steps: seq<Step>)
    requires Linked(h, Start(lines, open, prev))
    requires Settled(Execute(cfg, h, Start(lines, open, prev), steps))
    ensures var end := Execute(cfg, h, Start(lines, open, prev), steps);
            && Distinct(end.appended)
            && forall id: nat | id < |end.threads| ::
                 id in end.appended <==> ServerRuns.Recordable(cfg, end.threads[id].call)
  {
    EveryInterleavingKeepsTheRecords(cfg, h, lines, open, prev, steps);
    var end := Execute(cfg, h, Start(lines, open, prev), steps);
    hide Linked, Holds, Serial, Execute, ServerRuns.Recordable;
    forall id: nat | id < |end.threads|
      ensures id in end.appended <==> ServerRuns.Recordable(cfg, end.threads[id].call)
    {
      assert Placed(end, id);
      assert InPhase(end, id, Recorded) || InPhase(end, id, Lost);
    }
  }

  // ---- The rate ----

  predicate PassedIn(t: Thread, subject: PyString, from: real, to: real) {
    t.passes && t.call.verified.Returned? && t.call.verified.value.subject == subject && from <= t.call.now <= to
  }

  // The threads of a subject that the limiter let pass and that have read the
  // clock in the window.
  function PassedThreads(s: State, subject: PyString, from: real, to: real): set<nat> {
    set id: nat | id < |s.threads| && PassedIn(s.threads[id], subject, from, to)
  }

  function PassedAmong(s: State, ids: seq<nat>, subject: PyString, from: real, to: real): set<nat> {
    set id <- ids | id < |s.threads| && PassedIn(s.threads[id], subject, from, to)
  }

  lemma OneMorePassed(s: State, front: seq<nat>, id: nat, subject: PyString, from: real, to: real)
    requires id < |s.threads| && id !in front
    ensures |PassedAmong(s, front + [id], subject, from, to)|
         == |PassedAmong(s, front, subject, from, to)| + if PassedIn(s.threads[id], subject, from, to) then 1 else 0
  {
    hide PassedIn;
    assert PassedAmong(s, front + [id], subject, from, to)
        == PassedAmong(s, front, subject, from, to)
           + if PassedIn(s.threads[id], subject, from, to) then {id} else {};
  }

  lemma {:induction false} PassedAreCounted(cfg: Config, s: State, k: nat, subject: PyString, from: real, to: real)
    requires Orderly(s) && Serial(cfg, s.threads, s.taken) && k <= |s.taken|
    ensures |PassedAmong(s, s.taken[..k], subject, from, to)|
         == ServerRuns.PassedInWindow(cfg, CallsOf(s.threads, s.taken[..k]), subject, from, to)
  {
    hide Passes;
    var ids := s.taken[..k];
    var calls := CallsOf(s.threads, ids);
    if k == 0 {
      assert calls == [];
    } else {
      var front, id := s.taken[..k - 1], s.taken[k - 1];
      assert DecidedInOrder(cfg, s.threads, s.taken, k - 1);
      assert ids == front + [id] && calls[..k - 1] == CallsOf(s.threads, front);
      assert calls[k - 1] == s.threads[id].call;
      assert id !in front;
      PassedAreCounted(cfg, s, k - 1, subject, from, to);
      assert Placed(s, id);
      hide Orderly, Serial, CallsOf, PassedAmong;
      OneMorePassed(s, front, id, subject, from, to);
    }
  }

  // In every interleaving, the calls of a subject that pass and have read the
  // clock in a window number at most the burst plus what the rate yields over it.
  lemma EveryInterleavingIsBounded(cfg: Config, h: Audit.Hash, lines: seq<Audit.Line>, open: bool, prev: string,
                                   steps: seq<Step>, subject: PyString, from: real, to: real)
    requires Linked(h, Start(lines, open, prev))
    requires cfg.limit.ratePerMinute >= 0 && cfg.limit.burst >= 0 && from <= to
    ensures var end := Execute(cfg, h, Start(lines, open, prev), steps);
            |PassedThreads(end, subject, from, to)| as real
              <= cfg.limit.burst as real + (to - from) * cfg.limit.ratePerMinute as real / 60.0
  {
    EveryInterleavingKeepsTheRecords(cfg, h, lines, open, prev, steps);
    var end := Execute(cfg, h, Start(lines, open, prev), steps);
    hide Linked, Holds, Execute, Serial;
    PassedAreCounted(cfg, end, |end.taken|, subject, from, to);
    assert end.taken[..|end.taken|] == end.taken;
    forall id: nat | id < |end.threads| && end.threads[id].passes
      ensures id in end.taken
    {
      assert Placed(end, id);
    }
    assert PassedThreads(end, subject, from, to) == PassedAmong(end, end.taken, subject, from, to);
    ServerRuns.EverySubjectIsBounded(cfg, CallsOf(end.threads, end.taken), subject, from, to);
  }
}
