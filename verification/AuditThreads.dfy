// Writer threads on one logger. A thread builds its record first and appends it
// under the lock later, unless it cannot be encoded; a restart drops what is unwritten and opens a new
// logger on the same file.
module AuditThreads {
  import opened Wrappers
  import opened Text
  import opened Audit

  datatype State = State(lines: seq<Line>, open: bool, prevHash: string, pending: map<nat, Fields>)

  datatype Step =
    | Prepare(thread: nat, ts: string, event: Event)
    | Append(thread: nat)
    | Restart

  function Apply(h: Hash, s: State, step: Step): State
    requires PendingUnchained(s.pending)
  {
    match step
    case Prepare(thread, ts, event) =>
      if thread in s.pending || !Writable(event) then s
      else s.(pending := s.pending[thread := EventFields(ts, event)])
    case Append(thread) =>
      if thread !in s.pending then s
      else
        var sealed := Sealed(h, s.pending[thread], s.prevHash);
        State(AppendRecord(s.lines, s.open, sealed), false, h(Body(sealed)), s.pending - {thread})
    case Restart =>
      match LoadLastHash(s.lines)
      case Ok(prev) => s.(prevHash := prev, pending := map[])
      case Err(_) => s
  }

  predicate PendingUnchained(pending: map<nat, Fields>) {
    forall t <- pending :: Unchained(pending[t])
  }

  function Execute(h: Hash, s: State, steps: seq<Step>): State
    requires PendingUnchained(s.pending)
    decreases |steps|
  {
    if steps == [] then s else Execute(h, Apply(h, s, steps[0]), steps[1..])
  }

  // What the steps append, and in which order, told from the steps alone: a
  // thread's Append writes the event of its latest Prepare, once, unless a
  // Restart came between.
  function Appended(steps: seq<Step>, pending: map<nat, Fields>): seq<Fields>
    decreases |steps|
  {
    if steps == [] then []
    else
      match steps[0]
      case Prepare(thread, ts, event) =>
        Appended(steps[1..],
                 if thread in pending || !Writable(event) then pending else pending[thread := EventFields(ts, event)])
      case Append(thread) =>
        if thread in pending then [pending[thread]] + Appended(steps[1..], pending - {thread})
        else Appended(steps[1..], pending)
      case Restart => Appended(steps[1..], map[])
  }

  // The file verifies and the logger remembers what a fresh one would load.
  ghost predicate Consistent(h: Hash, s: State) {
    && IsIntact(h, s.lines)
    && LoadLastHash(s.lines) == Ok(s.prevHash)
    && PendingUnchained(s.pending)
  }

  // What one step appends.
  function Now(pending: map<nat, Fields>, step: Step): seq<Fields> {
    if step.Append? && step.thread in pending then [pending[step.thread]] else []
  }

  lemma StepKeepsConsistent(h: Hash, s: State, step: Step)
    requires Consistent(h, s) && !Spoils(s.lines, s.open)
    ensures var next := Apply(h, s, step);
            && Consistent(h, next) && !Spoils(next.lines, next.open)
            && Payloads(next.lines) == Payloads(s.lines) + Now(s.pending, step)
  {
    hide IsIntact, LoadLastHash, Sealed, Payloads, Body, AppendRecord;
    if step.Append? && step.thread in s.pending {
      var fields := s.pending[step.thread];
      AppendKeepsIntactIff(h, s.lines, s.open, fields, s.prevHash);
      AppendAddsPayload(h, s.lines, s.open, fields, s.prevHash);
    }
  }

  lemma StepAppendsNow(h: Hash, s: State, steps: seq<Step>)
    requires Consistent(h, s) && steps != []
    ensures Appended(steps, s.pending)
         == Now(s.pending, steps[0]) + Appended(steps[1..], Apply(h, s, steps[0]).pending)
  {
    hide LoadLastHash, Sealed, EventFields, Unchained;
  }

  // Any interleaving of writers and restarts, started on a file that verifies
  // and does not end in an unfinished line, leaves a file that verifies and
  // holds what it held followed by every appended event exactly once, and a
  // memory equal to what a fresh logger would load.
  lemma {:induction false} EveryInterleavingKeepsTheLog(h: Hash, s: State, steps: seq<Step>)
    requires Consistent(h, s) && !Spoils(s.lines, s.open)
    ensures var end := Execute(h, s, steps);
            && Consistent(h, end) && !Spoils(end.lines, end.open)
            && Payloads(end.lines) == Payloads(s.lines) + Appended(steps, s.pending)
    decreases |steps|
  {
    if steps == [] {
      assert Execute(h, s, steps) == s && Appended(steps, s.pending) == [];
    } else {
      var next, rest := Apply(h, s, steps[0]), steps[1..];
      assert Execute(h, s, steps) == Execute(h, next, rest);
      StepKeepsConsistent(h, s, steps[0]);
      StepAppendsNow(h, s, steps);
      EveryInterleavingKeepsTheLog(h, next, rest);
      hide *;
      ConcatAssociates(Payloads(s.lines), Now(s.pending, steps[0]), Appended(rest, next.pending));
    }
  }

  // A closed file that does not verify never verifies again.
  lemma {:induction false} BrokenStaysBroken(h: Hash, s: State, steps: seq<Step>)
    requires PendingUnchained(s.pending) && !s.open && !IsIntact(h, s.lines)
    ensures !IsIntact(h, Execute(h, s, steps).lines)
    decreases |steps|
  {
    if steps != [] {
      var next := Apply(h, s, steps[0]);
      if steps[0].Append? && steps[0].thread in s.pending {
        var last := Record(Sealed(h, s.pending[steps[0].thread], s.prevHash));
        assert next.lines == s.lines + [last];
        if IsIntact(h, next.lines) {
          PrefixIsIntact(h, s.lines, [last]);
        }
      }
      hide IsIntact, LoadLastHash, Sealed, EventFields, AppendRecord;
      BrokenStaysBroken(h, next, steps[1..]);
    }
  }

  lemma {:induction false} SpoiledBreaksOnAppend(h: Hash, s: State, steps: seq<Step>)
    requires Consistent(h, s) && Spoils(s.lines, s.open)
    ensures IsIntact(h, Execute(h, s, steps).lines) <==> Appended(steps, s.pending) == []
    decreases |steps|
  {
    if steps != [] {
      var next := Apply(h, s, steps[0]);
      StepAppendsNow(h, s, steps);
      if steps[0].Append? && steps[0].thread in s.pending {
        AppendKeepsIntactIff(h, s.lines, s.open, s.pending[steps[0].thread], s.prevHash);
        hide IsIntact, LoadLastHash, Sealed, EventFields, AppendRecord;
        BrokenStaysBroken(h, next, steps[1..]);
      } else {
        hide IsIntact, LoadLastHash, Sealed, EventFields, AppendRecord;
        assert [] + Appended(steps[1..], next.pending) == Appended(steps[1..], next.pending);
        SpoiledBreaksOnAppend(h, next, steps[1..]);
      }
    }
  }

  // On a file that verifies, every interleaving leaves a file that verifies
  // exactly when nothing is appended or the last line is not left open.
  lemma InterleavingKeepsIntactIff(h: Hash, s: State, steps: seq<Step>)
    requires Consistent(h, s)
    ensures IsIntact(h, Execute(h, s, steps).lines)
       <==> Appended(steps, s.pending) == [] || !Spoils(s.lines, s.open)
  {
    if Spoils(s.lines, s.open) {
      SpoiledBreaksOnAppend(h, s, steps);
    } else {
      EveryInterleavingKeepsTheLog(h, s, steps);
    }
  }

  // Two loggers open on the same file at once: after the first has written, a
  // write by the second keeps the file intact only if the first one's record
  // happens to hash to the value both had loaded.
  lemma SecondLoggerBreaksTheChain(h: Hash, lines: seq<Line>, open: bool, first: Fields, second: Fields, prev: string)
    requires IsIntact(h, lines) && LoadLastHash(lines) == Ok(prev)
    requires Unchained(first) && Unchained(second)
    ensures var one := AppendRecord(lines, open, Sealed(h, first, prev));
            IsIntact(h, AppendRecord(one, false, Sealed(h, second, prev)))
            <==> h(Body(Sealed(h, first, prev))) == prev && !Spoils(lines, open)
  {
    var one := AppendRecord(lines, open, Sealed(h, first, prev));
    var last := Record(Sealed(h, second, prev));
    AppendKeepsIntactIff(h, lines, open, first, prev);
    assert AppendRecord(one, false, Sealed(h, second, prev)) == one + [last];
    if IsIntact(h, one) {
      AppendKeepsIntactIff(h, one, false, second, prev);
    } else if IsIntact(h, one + [last]) {
      PrefixIsIntact(h, one, [last]);
    }
  }
}
