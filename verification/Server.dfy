// The dispatcher: authentication, rate limit, role check, tool and audit record.
module Server {
  import opened Wrappers
  import opened Seqs
  import opened Text
  import opened PyText
  import opened Rbac
  import opened Inventories
  import Encoding
  import RateLimit
  import Audit

  // An Exception, with what its message is made from.
  datatype Failure =
    | Refused(error: AuthorizationError)
    | OverTheRate
    | UnknownTool(tool: PyString)
    | UnknownQm(qm: PyString)
    | WrongParameter(key: string)
    | Unencodable
    | Other(name: string, message: PyString)

  function ClassOf(f: Failure): string {
    match f
    case Refused(_) => "AuthorizationError"
    case OverTheRate => "PermissionError"
    case UnknownTool(_) => "LookupError"
    case UnknownQm(_) => "LookupError"
    case WrongParameter(_) => "ValueError"
    case Unencodable => "JSONEncodeError"
    case Other(name, _) => name
  }

  // How a piece of code ends: with a value, with an Exception, or with something
  // that is no Exception, such as a KeyboardInterrupt.
  datatype Effect<+T> = Returned(value: T) | Raised(failure: Failure) | Escaped

  // A call, with what the parts outside this model bring to it: how verifying
  // the token ends, the clock readings, and how the diagnosis itself would end.
  datatype Call = Call(
    verified: Effect<Principal>,
    now: real,
    tool: PyString,
    params: Encoding.Value,
    diagnosis: Effect<string>,
    timestamp: string,
    durationMs: int)

  datatype Answer =
    | Health(principal: PyString, readable: seq<QmEntry>)
    | Diagnosis(tool: PyString, qm: PyString, text: string)

  // hashOf stands for SHA-256, depth for the nesting the encoder allows.
  datatype Config = Config(
    limit: RateLimit.Config,
    inventory: Inventory,
    hashOf: seq<Encoding.Token> -> string,
    depth: nat)

  // ---- Parameters ----

  // The name of the queue manager, unless it is missing or no string.
  function TargetQm(call: Call): Option<PyString> {
    var v := Encoding.Lookup(call.params, Codes("qm_name"));
    if v.Some? && v.value.Text? then Some(v.value.s) else None
  }

  // params.get(key, 50) is an integer; a truth value is one too.
  predicate IsInteger(call: Call, key: string) {
    var v := Encoding.Lookup(call.params, Codes(key));
    v.None? || v.value.Int? || v.value.Bool?
  }

  // params or {}
  function OrEmpty(v: Encoding.Value): Encoding.Value {
    if v in {Encoding.Null, Encoding.Bool(false), Encoding.Int(0), Encoding.Float(0.0),
             Encoding.Text([]), Encoding.List(Encoding.Done)}
    then Encoding.Object(Encoding.Done) else v
  }

  // ---- What a call leads to ----

  datatype Tool = HealthTool | DlqTool | CheckupTool | OtherTool | NoTool

  function ToolOf(name: PyString): Tool {
    if name == Codes("health") then HealthTool
    else if name == Codes("analyze_dlq_and_suggest_reprocessing") then DlqTool
    else if name == Codes("full_mq_health_check") then CheckupTool
    else if
      || name == Codes("diagnose_failed_channels") || name == Codes("check_cluster_health")
      || name == Codes("diagnose_native_ha_issues") || name == Codes("diagnose_rdqm_issues")
      || name == Codes("diagnose_zos_qsg_issues") || name == Codes("diagnose_multi_instance_issues")
    then OtherTool
    else NoTool
  }

  function Needed(e: QmEntry): Action {
    if e.environment == "prod" then ReadProd else ReadNonprod
  }

  function CanRead(p: Principal): QmEntry -> bool {
    (e: QmEntry) => MayDo(p, Needed(e))
  }

  // The action that a diagnosis of the named queue manager takes; an unknown
  // name is taken for a non-production one.
  function ActionOn(inventory: Inventory, qm: PyString): Action {
    var entry := Lookup(inventory, qm);
    if entry.Some? then Needed(entry.value) else ReadNonprod
  }

  function Diagnose(inventory: Inventory, p: Principal, qm: PyString, call: Call): Effect<Answer> {
    var action := ActionOn(inventory, qm);
    if !MayDo(p, action) then Raised(Refused(AuthorizationError(p.subject, action)))
    else if Lookup(inventory, qm).None? then Raised(UnknownQm(qm))
    else
      match call.diagnosis
      case Returned(text) => Returned(Diagnosis(call.tool, qm, text))
      case Raised(failure) => Raised(failure)
      case Escaped => Escaped
  }

  // The call gets as far as the role check of a diagnosis.
  predicate Diagnoses(call: Call) {
    var tool := ToolOf(call.tool);
    && !tool.HealthTool? && !tool.NoTool?
    && TargetQm(call).Some?
    && (tool.DlqTool? ==> IsInteger(call, "sample_size"))
    && (tool.CheckupTool? ==> IsInteger(call, "dlq_sample_size"))
  }

  function Run(inventory: Inventory, p: Principal, call: Call): Effect<Answer> {
    var tool, qm := ToolOf(call.tool), TargetQm(call);
    if tool.HealthTool? then Returned(Health(p.subject, Filter(inventory, CanRead(p))))
    else if tool.NoTool? then Raised(UnknownTool(call.tool))
    else if qm.None? then Raised(WrongParameter("qm_name"))
    else if tool.DlqTool? && !IsInteger(call, "sample_size") then Raised(WrongParameter("sample_size"))
    else if tool.CheckupTool? && !IsInteger(call, "dlq_sample_size") then Raised(WrongParameter("dlq_sample_size"))
    else Diagnose(inventory, p, qm.value, call)
  }

  // What the limiter sees of a call: one token on the subject's bucket.
  function LimiterCall(call: Call): RateLimit.Call
    requires call.verified.Returned?
  {
    RateLimit.Call(call.verified.value.subject, RateLimit.Request(call.now, 1.0))
  }

  // How the guarded part of a call ends, given whether the limiter lets it pass;
  // outcome and error are what it leaves in the variables of those names.
  datatype Attempted = Attempted(result: Effect<Answer>, outcome: string, error: Option<string>)

  function NameOf(r: Effect<Answer>): Option<string> {
    if r.Raised? then Some(ClassOf(r.failure)) else None
  }

  function Attempt(inventory: Inventory, call: Call, passes: bool): Attempted {
    match call.verified
    case Raised(failure) => Attempted(Raised(failure), "error", Some(ClassOf(failure)))
    case Escaped => Attempted(Escaped, "error", None)
    case Returned(p) =>
      if !passes then Attempted(Raised(OverTheRate), "denied", Some(ClassOf(OverTheRate)))
      else
        var r := Run(inventory, p, call);
        Attempted(r, if r.Returned? then "ok" else "error", NameOf(r))
  }

  // ---- The audit record ----

  function Hashed(cfg: Config, call: Call): Option<string> {
    var tokens := Encoding.Encode(OrEmpty(call.params), cfg.depth);
    if tokens.Some? then Some(cfg.hashOf(tokens.value)) else None
  }

  function EventOf(call: Call, a: Attempted, hash: string): Audit.Event {
    Audit.Event(
      if call.verified.Returned? then call.verified.value.subject else Codes("unauthenticated"),
      if call.verified.Returned? then call.verified.value.tenant else None,
      call.tool, TargetQm(call), hash, a.outcome, call.durationMs, a.error)
  }

  // The fields recorded for a call that ended in this way, if it leaves a
  // record at all.
  function FieldsFor(cfg: Config, call: Call, a: Attempted): Option<Audit.Fields> {
    var hash := Hashed(cfg, call);
    if hash.None? then None
    else
      var e := EventOf(call, a, hash.value);
      if Audit.Writable(e) then Some(Audit.EventFields(call.timestamp, e)) else None
  }

  function RecordOf(cfg: Config, call: Call, passes: bool): Option<Audit.Fields> {
    FieldsFor(cfg, call, Attempt(cfg.inventory, call, passes))
  }

  lemma FieldsTell(cfg: Config, call: Call, a: Attempted)
    ensures var fields := FieldsFor(cfg, call, a);
            fields.Some? ==>
              && Audit.Unchained(fields.value)
              && (Audit.Get(fields.value, "error") == Some(Audit.Null) <==> a.error == None)
              && Audit.Get(fields.value, "outcome") == Some(Audit.Str(a.outcome))
  {
    hide Hashed, TargetQm;
  }

  // What the caller sees: failing to record a call ends it in the encoder's
  // error, whatever it would have ended in.
  function Ending(cfg: Config, call: Call, passes: bool): Effect<Answer> {
    if RecordOf(cfg, call, passes).None? then Raised(Unencodable)
    else Attempt(cfg.inventory, call, passes).result
  }

  // ---- Runs ----

  function LimiterCalls(calls: seq<Call>): seq<RateLimit.Call> {
    if calls == [] then []
    else
      var n := |calls| - 1;
      LimiterCalls(calls[..n]) + if calls[n].verified.Returned? then [LimiterCall(calls[n])] else []
  }

  // The call is authenticated and within its subject's rate.
  predicate Passes(cfg: Config, calls: seq<Call>, call: Call) {
    call.verified.Returned? && RateLimit.Granting(cfg.limit, LimiterCalls(calls), LimiterCall(call))
  }

  function OptionSeq<T>(o: Option<T>): seq<T> {
    if o.Some? then [o.value] else []
  }

  // The records a run of calls leaves, without their chain fields.
  function Logged(cfg: Config, calls: seq<Call>): seq<Audit.Fields> {
    if calls == [] then []
    else
      var front, last := calls[..|calls| - 1], calls[|calls| - 1];
      Logged(cfg, front) + OptionSeq(RecordOf(cfg, last, Passes(cfg, front, last)))
  }

  // ---- The dispatcher ----

  class MqSentinelServer {
    const cfg: Config
    const audit: Audit.AuditLogger
    const rate: RateLimit.RateLimiter
    ghost const start: seq<Audit.Line>
    ghost const startOpen: bool
    ghost var calls: seq<Call>

    // The limiter has seen the authenticated calls so far. If the file verified
    // at the start and did not end in an unfinished line, it verifies and holds
    // what it held and then the records of the run.
    ghost predicate Valid()
      reads this, audit, audit.file, rate, rate.buckets.Values
    {
      && rate.Valid() && rate.config == cfg.limit && rate.calls == LimiterCalls(calls)
      && (Audit.IsIntact(audit.hash, start) && !Audit.Spoils(start, startOpen) ==>
            audit.Valid() && Audit.Payloads(audit.file.lines) == Audit.Payloads(start) + Logged(cfg, calls))
    }

    constructor (limit: int, inventory: Inventory, hashOf: seq<Encoding.Token> -> string, depth: nat,
                 hash: Audit.Hash, file: Audit.LogFile, prev: string)
      requires Audit.LoadLastHash(file.lines) == Ok(prev)
      ensures Valid() && calls == [] && start == file.lines && startOpen == file.open
      ensures audit.file == file && audit.hash == hash
      ensures cfg == Config(RateLimit.Config(limit, limit), inventory, hashOf, depth)
      ensures fresh(audit) && fresh(rate) && rate.buckets == map[]
    {
      cfg := Config(RateLimit.Config(limit, limit), inventory, hashOf, depth);
      start, startOpen := file.lines, file.open;
      calls := [];
      var logger := new Audit.AuditLogger(hash, file, prev);
      var limiter := new RateLimit.RateLimiter(RateLimit.Config(limit, limit));
      audit := logger;
      rate := limiter;
    }

    method ReadableEntries(p: Principal) returns (readable: seq<QmEntry>)
      ensures readable == Filter(cfg.inventory, CanRead(p))
    {
      readable := [];
      for i := 0 to |cfg.inventory|
        invariant readable == Filter(cfg.inventory[..i], CanRead(p))
      {
        var e := cfg.inventory[i];
        FilterStep(cfg.inventory, i, CanRead(p));
        var r := Authorize(p, Needed(e));
        if r.Ok? {
          readable := readable + [e];
        }
      }
      assert cfg.inventory[..|cfg.inventory|] == cfg.inventory;
    }

    // The part that all diagnosis tools share.
    method RunDiagnosis(p: Principal, qm: PyString, call: Call) returns (r: Effect<Answer>)
      ensures r == Diagnose(cfg.inventory, p, qm, call)
    {
      var entry := Lookup(cfg.inventory, qm);
      hide Lookup, MayDo;
      if entry.None? {
        var permitted := Authorize(p, ReadNonprod);
        return Raised(if permitted.Err? then Refused(permitted.error) else UnknownQm(qm));
      }
      var permitted := Authorize(p, Needed(entry.value));
      if permitted.Err? {
        return Raised(Refused(permitted.error));
      }
      match call.diagnosis {
        case Returned(text) => return Returned(Diagnosis(call.tool, qm, text));
        case Raised(failure) => return Raised(failure);
        case Escaped => return Escaped;
      }
    }

    method RunTool(p: Principal, call: Call) returns (r: Effect<Answer>)
      ensures r == Run(cfg.inventory, p, call)
    {
      var tool, qm := ToolOf(call.tool), TargetQm(call);
      hide ToolOf, TargetQm, IsInteger;
      if tool.HealthTool? {
        var readable := ReadableEntries(p);
        return Returned(Health(p.subject, readable));
      }
      if tool.NoTool? {
        return Raised(UnknownTool(call.tool));
      }
      if qm.None? {
        return Raised(WrongParameter("qm_name"));
      }
      if tool.DlqTool? && !IsInteger(call, "sample_size") {
        return Raised(WrongParameter("sample_size"));
      }
      if tool.CheckupTool? && !IsInteger(call, "dlq_sample_size") {
        return Raised(WrongParameter("dlq_sample_size"));
      }
      r := RunDiagnosis(p, qm.value, call);
    }

    // The try and except parts: authenticate, ask the limiter, run the tool.
    method Guarded(call: Call)
      returns (principal: Option<Principal>, r: Effect<Answer>, outcome: string, error: Option<string>)
      requires rate.Valid() && rate.config == cfg.limit && rate.calls == LimiterCalls(calls)
      modifies rate, rate.buckets.Values
      ensures rate.Valid() && rate.calls == LimiterCalls(calls + [call])
      ensures fresh(rate.buckets.Values - old(rate.buckets.Values))
      ensures principal == if call.verified.Returned? then Some(call.verified.value) else None
      ensures Attempted(r, outcome, error) == Attempt(cfg.inventory, call, Passes(cfg, calls, call))
      ensures error == None <==> r.Returned? || r.Escaped?
      ensures outcome == "ok" <==> r.Returned?
    {
      LimiterCallsAppend(calls, call);
      hide Run, RateLimit.Granting, LimiterCalls;
      principal, outcome, error := None, "error", None;
      match call.verified {
        case Raised(failure) =>
          r := Raised(failure);
        case Escaped =>
          r := Escaped;
        case Returned(p) =>
          principal := Some(p);
          var allowed := rate.Allow(p.subject, call.now, 1.0);
          if !allowed {
            outcome := "denied";
            r := Raised(OverTheRate);
          } else {
            r := RunTool(p, call);
            if r.Returned? {
              outcome := "ok";
            }
          }
      }
      if r.Raised? {
        error := Some(ClassOf(r.failure));
      }
    }

    // The finally part.
    method Record(call: Call, principal: Option<Principal>, ghost a: Attempted, outcome: string, error: Option<string>)
      returns (ok: bool)
      requires principal == if call.verified.Returned? then Some(call.verified.value) else None
      requires a.outcome == outcome && a.error == error
      modifies audit, audit.file
      ensures ok <==> FieldsFor(cfg, call, a).Some?
      ensures !ok ==>
        && audit.file.lines == old(audit.file.lines) && audit.file.open == old(audit.file.open)
        && audit.prevHash == old(audit.prevHash) && (old(audit.Valid()) ==> audit.Valid())
      ensures ok ==>
        var fields := FieldsFor(cfg, call, a).value;
        && audit.file.lines == Audit.AppendRecord(old(audit.file.lines), old(audit.file.open),
                                                  Audit.Sealed(audit.hash, fields, old(audit.prevHash)))
        && (old(audit.Valid()) ==>
              audit.Valid() && Audit.Payloads(audit.file.lines) == old(Audit.Payloads(audit.file.lines)) + [fields])
    {
      hide Audit.Payloads, Audit.IsIntact, Audit.AppendRecord, Audit.Sealed, Audit.LoadLastHash, Audit.Body, Hashed, TargetQm;
      var hash := Hashed(cfg, call);
      if hash.None? {
        return false;
      }
      var event := Audit.Event(
        if principal.Some? then principal.value.subject else Codes("unauthenticated"),
        if principal.Some? then principal.value.tenant else None,
        call.tool, TargetQm(call), hash.value, outcome, call.durationMs, error);
      assert event == EventOf(call, a, hash.value);
      hide Audit.Writable, Audit.Spoils;
      if Audit.Writable(event) && !Audit.Spoils(audit.file.lines, audit.file.open) {
        FieldsTell(cfg, call, a);
        Audit.AppendAddsPayload(audit.hash, audit.file.lines, audit.file.open,
                                Audit.EventFields(call.timestamp, event), audit.prevHash);
      }
      hide Audit.EventFields;
      var written := audit.Write(call.timestamp, event);
      ok := written.Ok?;
    }

    // Each call passes through the limiter at most once and leaves its one
    // record, unless that cannot be encoded.
    method Dispatch(call: Call) returns (r: Effect<Answer>)
      requires Valid()
      modifies this`calls, audit, audit.file, rate, rate.buckets.Values
      ensures Valid() && calls == old(calls) + [call]
      ensures fresh(rate.buckets.Values - old(rate.buckets.Values))
      ensures r == Ending(cfg, call, Passes(cfg, old(calls), call))
      ensures var fields := RecordOf(cfg, call, Passes(cfg, old(calls), call));
              audit.file.lines ==
                if fields.None? then old(audit.file.lines)
                else Audit.AppendRecord(old(audit.file.lines), old(audit.file.open),
                                        Audit.Sealed(audit.hash, fields.value, old(audit.prevHash)))
    {
      hide Passes, LimiterCalls, Logged, FieldsFor, Attempt, RateLimit.RateLimiter.Valid, Audit.AuditLogger.Valid;
      hide Audit.Payloads, Audit.IsIntact, Audit.Spoils, Audit.AppendRecord, Audit.Sealed;
      ghost var passes := Passes(cfg, calls, call);
      LoggedAppend(cfg, calls, call);
      ghost var held, logged := Audit.Payloads(start), Logged(cfg, calls);
      var principal, result, outcome, error := Guarded(call);
      ghost var a := Attempted(result, outcome, error);
      assert RecordOf(cfg, call, passes) == FieldsFor(cfg, call, a);
      calls := calls + [call];
      var recorded := Record(call, principal, a, outcome, error);
      if recorded {
        ConcatAssociates(held, logged, [FieldsFor(cfg, call, a).value]);
      }
      r := if recorded then result else Raised(Unencodable);
    }
  }

  lemma LimiterCallsAppend(calls: seq<Call>, call: Call)
    ensures LimiterCalls(calls + [call])
         == LimiterCalls(calls) + if call.verified.Returned? then [LimiterCall(call)] else []
  {
    assert (calls + [call])[..|calls|] == calls;
  }

  lemma LoggedAppend(cfg: Config, calls: seq<Call>, call: Call)
    ensures Logged(cfg, calls + [call])
         == Logged(cfg, calls) + OptionSeq(RecordOf(cfg, call, Passes(cfg, calls, call)))
    ensures RecordOf(cfg, call, Passes(cfg, calls, call)).None? ==> Logged(cfg, calls + [call]) == Logged(cfg, calls)
  {
    hide RecordOf;
    assert (calls + [call])[..|calls|] == calls;
  }
}
