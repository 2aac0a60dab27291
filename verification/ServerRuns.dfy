// What holds of every call of a run of the dispatcher, and of whole runs.
module ServerRuns {
  import opened Wrappers
  import opened Seqs
  import opened PyText
  import opened Rbac
  import opened Inventories
  import opened Server
  import Audit
  import Encoding
  import RateLimit

  // ---- Single calls ----

  // ---- Tools and parameters ----

  // A missing parameter has a default; a truth value is an integer.
  predicate MissingOrInteger(v: Option<Encoding.Value>) {
    v.None? || v.value.Int? || v.value.Bool?
  }

  predicate IsPlainDiagnosis(tool: PyString) {
    || tool == Codes("diagnose_failed_channels") || tool == Codes("check_cluster_health")
    || tool == Codes("diagnose_native_ha_issues") || tool == Codes("diagnose_rdqm_issues")
    || tool == Codes("diagnose_zos_qsg_issues") || tool == Codes("diagnose_multi_instance_issues")
  }

  lemma NamesDiffer(name: string)
    requires name in {"health", "analyze_dlq_and_suggest_reprocessing", "full_mq_health_check"}
    ensures !IsPlainDiagnosis(Codes(name))
    ensures name != "health" ==> Codes(name) != Codes("health")
    ensures name != "full_mq_health_check" ==> Codes(name) != Codes("full_mq_health_check")
  {
    assert |Codes(name)| == |name|;
    assert Codes("check_cluster_health")[0] == 'c' as int && Codes("diagnose_rdqm_issues")[0] == 'd' as int;
    assert name == "full_mq_health_check" ==> Codes(name)[0] == 'f' as int;
  }

  // What each tool name leads to, before any role is checked.
  lemma ToolsLeadTo(inventory: Inventory, p: Principal, call: Call)
    ensures var run, tool, params := Run(inventory, p, call), call.tool, call.params;
            var qm := Encoding.Lookup(params, Codes("qm_name"));
            var health, dlq, checkup :=
              Codes("health"), Codes("analyze_dlq_and_suggest_reprocessing"), Codes("full_mq_health_check");
            run ==
              if tool == health then Returned(Health(p.subject, Filter(inventory, CanRead(p))))
              else if tool != dlq && tool != checkup && !IsPlainDiagnosis(tool) then Raised(UnknownTool(tool))
              else if qm.None? || !qm.value.Text? then Raised(WrongParameter("qm_name"))
              else if tool == dlq && !MissingOrInteger(Encoding.Lookup(params, Codes("sample_size")))
              then Raised(WrongParameter("sample_size"))
              else if tool == checkup && !MissingOrInteger(Encoding.Lookup(params, Codes("dlq_sample_size")))
              then Raised(WrongParameter("dlq_sample_size"))
              else Diagnose(inventory, p, qm.value.s, call)
  {
    NamesDiffer("health");
    NamesDiffer("analyze_dlq_and_suggest_reprocessing");
    NamesDiffer("full_mq_health_check");
    hide Codes, Encoding.Lookup, Filter, Diagnose;
  }

  // The class of an exception as it is recorded.
  lemma ErrorNamesTheClass(cfg: Config, call: Call, passes: bool)
    requires Recordable(cfg, call) && Ending(cfg, call, passes).Raised?
    ensures RecordOf(cfg, call, passes).Some?
    ensures Audit.Get(RecordOf(cfg, call, passes).value, "error") == Some(Audit.Str(
              match Ending(cfg, call, passes).failure
              case Refused(_) => "AuthorizationError"
              case OverTheRate => "PermissionError"
              case UnknownTool(_) => "LookupError"
              case UnknownQm(_) => "LookupError"
              case WrongParameter(_) => "ValueError"
              case Unencodable => "JSONEncodeError"
              case Other(name, _) => name))
  {
    RecordedIff(cfg, call, passes);
    RecordTellsCall(cfg, call, passes);
    hide RecordOf, Run, TargetQm, OrEmpty, Codes, Recordable, Encoding.Encode;
  }

  // What a caller must hold to read a queue manager of that environment.
  predicate HoldsRoleFor(p: Principal, environment: string) {
    || "prod-read" in p.roles || "admin-audit" in p.roles
    || (environment != "prod" && "nonprod-read" in p.roles)
  }

  lemma ReadableIff(p: Principal, e: QmEntry)
    ensures MayDo(p, Needed(e)) <==> HoldsRoleFor(p, e.environment)
  {
    RolesGrant(p);
    hide MayDo;
  }

  // A diagnosis is only ever returned for a queue manager of the inventory, to
  // an authenticated caller within the rate who holds one of the roles that the
  // queue manager's environment needs; and it is the diagnosis asked for.
  lemma DiagnosisNeedsRole(cfg: Config, call: Call, passes: bool)
    requires Ending(cfg, call, passes).Returned? && Ending(cfg, call, passes).value.Diagnosis?
    ensures call.verified.Returned? && passes
    ensures var p, answer := call.verified.value, Ending(cfg, call, passes).value;
            var e := Lookup(cfg.inventory, answer.qm);
            && e.Some? && e.value in cfg.inventory && e.value.name == answer.qm
            && HoldsRoleFor(p, e.value.environment)
            && TargetQm(call) == Some(answer.qm) && answer.tool == call.tool
            && call.diagnosis == Returned(answer.text)
  {
    hide RecordOf, ToolOf, TargetQm, IsInteger;
    var e := Lookup(cfg.inventory, Ending(cfg, call, passes).value.qm);
    if e.Some? {
      HeldIffFound(cfg.inventory, e.value);
      ReadableIff(call.verified.value, e.value);
    }
    hide Lookup, MayDo, HoldsRoleFor;
  }

  // The health answer lists exactly the queue managers that the caller holds a
  // role for.
  lemma HealthListsTheReadable(cfg: Config, call: Call, passes: bool, e: QmEntry)
    requires Ending(cfg, call, passes).Returned? && Ending(cfg, call, passes).value.Health?
    ensures call.verified.Returned? && passes
    ensures Ending(cfg, call, passes).value.principal == call.verified.value.subject
    ensures e in Ending(cfg, call, passes).value.readable
       <==> e in cfg.inventory && HoldsRoleFor(call.verified.value, e.environment)
  {
    hide RecordOf, ToolOf, TargetQm, IsInteger;
    ReadableIff(call.verified.value, e);
    FilterHolds(cfg.inventory, CanRead(call.verified.value), e);
    hide MayDo, HoldsRoleFor;
  }

  lemma NothingIsReadable(inventory: Inventory, p: Principal)
    requires !MayDo(p, ReadNonprod)
    ensures Filter(inventory, CanRead(p)) == []
    ensures forall action: Action :: action != AuditView ==> !MayDo(p, action)
  {
    RolesGrant(p);
    var readable := Filter(inventory, CanRead(p));
    if readable != [] {
      FilterHolds(inventory, CanRead(p), readable[0]);
    }
  }

  lemma ProdActionIff(inventory: Inventory, qm: PyString)
    ensures ActionOn(inventory, qm) == if HasProd(inventory, qm) then ReadProd else ReadNonprod
  {
    if e :| e in inventory && e.name == qm && e.environment == "prod" {
      HeldIffFound(inventory, e);
    }
    var found := Lookup(inventory, qm);
    if found.Some? {
      HeldIffFound(inventory, found.value);
    }
  }

  // Without the right to read non-production queue managers every diagnosis is
  // refused, but the refusal names the action: it tells whether the queue
  // manager is a production one of the inventory.
  lemma RefusalNamesTheAction(inventory: Inventory, p: Principal, call: Call)
    requires !MayDo(p, ReadNonprod)
    ensures Run(inventory, p, call) ==
      if Diagnoses(call) then
        Raised(Refused(AuthorizationError(
          p.subject, if HasProd(inventory, TargetQm(call).value) then ReadProd else ReadNonprod)))
      else Run([], p, call)
  {
    NothingIsReadable(inventory, p);
    if TargetQm(call).Some? {
      ProdActionIff(inventory, TargetQm(call).value);
    }
    hide ToolOf, TargetQm, IsInteger, MayDo, HasProd, Lookup;
  }

  // To such a caller two inventories are told apart exactly when the call is
  // let through, can be recorded and gets to a diagnosis, and the name it gives
  // is that of a production queue manager in just one of them. The record does
  // not tell them apart.
  lemma WithoutRoleToldApartIff(cfg: Config, other: Inventory, call: Call, passes: bool)
    requires call.verified.Returned? && !MayDo(call.verified.value, ReadNonprod)
    ensures RecordOf(cfg.(inventory := other), call, passes) == RecordOf(cfg, call, passes)
    ensures Ending(cfg.(inventory := other), call, passes) != Ending(cfg, call, passes)
       <==> && passes && Recordable(cfg, call) && Diagnoses(call)
            && HasProd(other, TargetQm(call).value) != HasProd(cfg.inventory, TargetQm(call).value)
  {
    var p := call.verified.value;
    RefusalNamesTheAction(cfg.inventory, p, call);
    RefusalNamesTheAction(other, p, call);
    RecordedIff(cfg, call, passes);
    hide Run, TargetQm, Diagnoses, MayDo, HasProd, Recordable, Hashed, EventOf, Audit.Writable;
    assert Attempt(other, call, passes).error == Attempt(cfg.inventory, call, passes).error;
    RecordDependsOnTheClass(cfg, other, call, passes);
  }

  // The record holds the class of an exception and not its message.
  lemma RecordDependsOnTheClass(cfg: Config, other: Inventory, call: Call, passes: bool)
    requires var a, b := Attempt(cfg.inventory, call, passes), Attempt(other, call, passes);
             a.outcome == b.outcome && a.error == b.error
    ensures RecordOf(cfg.(inventory := other), call, passes) == RecordOf(cfg, call, passes)
  {
    hide Attempt, Encoding.Encode, Audit.Writable, Audit.EventFields, TargetQm, OrEmpty;
  }

  // The input at which the inventory shows: a production queue manager against none.
  lemma ProdNameIsTold(cfg: Config, call: Call)
    requires call.verified.Returned? && !MayDo(call.verified.value, ReadNonprod)
    requires Recordable(cfg, call) && Diagnoses(call)
    ensures var prod: Inventory := [QmEntry(TargetQm(call).value, "prod")];
            var subject := call.verified.value.subject;
            && Ending(cfg.(inventory := prod), call, true) == Raised(Refused(AuthorizationError(subject, ReadProd)))
            && Ending(cfg.(inventory := []), call, true) == Raised(Refused(AuthorizationError(subject, ReadNonprod)))
  {
    var qm := TargetQm(call).value;
    var prod: Inventory := [QmEntry(qm, "prod")];
    var none: Inventory := [];
    assert prod[0] in prod;
    assert HasProd(prod, qm) && !HasProd(none, qm);
    RefusalNamesTheAction(prod, call.verified.value, call);
    RefusalNamesTheAction(none, call.verified.value, call);
    RecordedIff(cfg.(inventory := prod), call, true);
    RecordedIff(cfg.(inventory := none), call, true);
    hide Run, TargetQm, Diagnoses, MayDo, HasProd, RecordOf;
  }

  ghost predicate HealthHidesInventory(cfg: Config, call: Call) {
    forall other: Inventory :: Ending(cfg.(inventory := other), call, true) == Ending(cfg, call, true)
  }

  // The health answer tells nothing of the inventory to exactly those without
  // that right.
  lemma HealthHidesInventoryIff(cfg: Config, call: Call)
    requires call.verified.Returned? && ToolOf(call.tool).HealthTool? && Recordable(cfg, call)
    ensures HealthHidesInventory(cfg, call) <==> !MayDo(call.verified.value, ReadNonprod)
  {
    var p := call.verified.value;
    if !MayDo(p, ReadNonprod) {
      forall other: Inventory ensures Ending(cfg.(inventory := other), call, true) == Ending(cfg, call, true) {
        WithoutRoleToldApartIff(cfg, other, call, true);
      }
    } else {
      HealthTells(cfg, call, QmEntry([], "dev"));
    }
  }

  lemma HealthTells(cfg: Config, call: Call, e: QmEntry)
    requires call.verified.Returned? && ToolOf(call.tool).HealthTool? && Recordable(cfg, call)
    requires MayDo(call.verified.value, Needed(e))
    ensures Ending(cfg.(inventory := [e]), call, true) != Ending(cfg.(inventory := []), call, true)
  {
    RecordedIff(cfg.(inventory := [e]), call, true);
    RecordedIff(cfg.(inventory := []), call, true);
    assert Filter([e], CanRead(call.verified.value)) == [e];
    hide RecordOf, ToolOf, MayDo;
  }

  // ---- What is recorded of a call ----

  // Everything in the call that is to be written can be written.
  predicate Recordable(cfg: Config, call: Call) {
    && Encoding.Encodable(OrEmpty(call.params), cfg.depth)
    && WellFormed(call.tool)
    && Encoding.FitsIn64Bits(call.durationMs)
    && (call.verified.Returned? ==>
          && WellFormed(call.verified.value.subject)
          && (call.verified.value.tenant.Some? ==> WellFormed(call.verified.value.tenant.value)))
  }

  lemma TargetQmIsWellFormed(cfg: Config, call: Call)
    requires Encoding.Encodable(OrEmpty(call.params), cfg.depth)
    ensures var qm := TargetQm(call); qm.Some? ==> WellFormed(qm.value)
  {
    var params, key := call.params, Codes("qm_name");
    hide Codes;
    var qm := TargetQm(call);
    if qm.Some? {
      Encoding.FoundIsInside(params.items, key);
      assert OrEmpty(params) == params;
      var leaf := Encoding.Text(qm.value);
      assert leaf in Encoding.Leaves(leaf);
      assert Encoding.IsWritable(leaf);
    }
  }

  // A call leaves a record exactly when its parameters, its tool name, its
  // caller's name and its duration can be written, whatever it ends in.
  lemma RecordedIff(cfg: Config, call: Call, passes: bool)
    ensures RecordOf(cfg, call, passes).Some? <==> Recordable(cfg, call)
  {
    Encoding.EncodesIff(OrEmpty(call.params), cfg.depth);
    TextIsWellFormed("unauthenticated");
    if Encoding.Encodable(OrEmpty(call.params), cfg.depth) {
      TargetQmIsWellFormed(cfg, call);
    }
    hide TargetQm, OrEmpty, Codes, WellFormed, Attempt, Encoding.Encodable, Encoding.Encode;
  }

  // The failing input: parameters that can be written, but a tool name with a
  // lone surrogate. The caller gets the encoder's error and no record is left.
  lemma SurrogateToolLeavesNoRecord(cfg: Config, call: Call, passes: bool)
    requires call.params == Encoding.Object(Encoding.Done) && cfg.depth > 0 && call.tool == [0xD800]
    ensures Hashed(cfg, call).Some?
    ensures RecordOf(cfg, call, passes).None? && Ending(cfg, call, passes) == Raised(Unencodable)
  {
    assert IsSurrogate(call.tool[0]);
    RecordedIff(cfg, call, passes);
  }

  // The recorded error is null exactly when a result was returned or something
  // outside Exception got away; the outcome is "ok" exactly when a result was
  // returned, and "denied" exactly when the limiter refused the caller.
  lemma ErrorIsNullIff(cfg: Config, call: Call, passes: bool)
    requires Recordable(cfg, call)
    ensures var r, fields := Ending(cfg, call, passes), RecordOf(cfg, call, passes);
            && fields.Some?
            && (Audit.Get(fields.value, "error") == Some(Audit.Null) <==> r.Returned? || r.Escaped?)
            && (Audit.Get(fields.value, "outcome") == Some(Audit.Str("ok")) <==> r.Returned?)
            && (Audit.Get(fields.value, "outcome") == Some(Audit.Str("denied"))
                <==> call.verified.Returned? && !passes)
  {
    RecordedIff(cfg, call, passes);
    FieldsTell(cfg, call, Attempt(cfg.inventory, call, passes));
    hide FieldsFor, Run, Recordable;
    assert "ok" != "error" && "ok" != "denied" && "denied" != "error";
  }

  // When something outside Exception gets away, in terms of the call: from
  // verifying the token, or from a diagnosis that the caller may have.
  lemma EscapesIff(cfg: Config, call: Call, passes: bool)
    ensures Ending(cfg, call, passes).Escaped?
       <==> && Recordable(cfg, call)
            && (|| call.verified.Escaped?
                || (&& call.verified.Returned? && passes && Diagnoses(call) && call.diagnosis.Escaped?
                    && var entry := Lookup(cfg.inventory, TargetQm(call).value);
                       entry.Some? && MayDo(call.verified.value, Needed(entry.value))))
  {
    RecordedIff(cfg, call, passes);
    hide RecordOf, Recordable, ToolOf, TargetQm, IsInteger, MayDo, Lookup;
  }

  // The input at which a null error does not mean an answer: the diagnosis is
  // left by something outside Exception, such as a KeyboardInterrupt.
  lemma EscapeLeavesANullError(cfg: Config, call: Call, qm: PyString)
    requires Recordable(cfg, call) && call.verified.Returned? && call.diagnosis.Escaped?
    requires ToolOf(call.tool) == OtherTool && TargetQm(call) == Some(qm)
    requires Lookup(cfg.inventory, qm).Some? && MayDo(call.verified.value, Needed(Lookup(cfg.inventory, qm).value))
    ensures var fields := RecordOf(cfg, call, true);
            && Ending(cfg, call, true) == Escaped
            && fields.Some?
            && Audit.Get(fields.value, "error") == Some(Audit.Null)
            && Audit.Get(fields.value, "outcome") == Some(Audit.Str("error"))
  {
    RecordedIff(cfg, call, true);
    FieldsTell(cfg, call, Attempt(cfg.inventory, call, true));
    hide FieldsFor, Recordable, ToolOf, TargetQm, IsInteger;
  }

  // ---- The records of a run ----

  predicate AllRecordable(cfg: Config, calls: seq<Call>) {
    forall i | 0 <= i < |calls| :: Recordable(cfg, calls[i])
  }

  lemma OneMoreRecordable(cfg: Config, calls: seq<Call>)
    requires calls != []
    ensures var front, last := calls[..|calls| - 1], calls[|calls| - 1];
            AllRecordable(cfg, calls) <==> AllRecordable(cfg, front) && Recordable(cfg, last)
  {
    hide Recordable;
    var front := calls[..|calls| - 1];
    assert forall i | 0 <= i < |front| :: front[i] == calls[i];
  }

  // A run leaves one record per call exactly when everything in every call can
  // be written, and otherwise fewer.
  lemma {:induction false} OneRecordPerCallIff(cfg: Config, calls: seq<Call>)
    ensures |Logged(cfg, calls)| <= |calls|
    ensures |Logged(cfg, calls)| == |calls| <==> AllRecordable(cfg, calls)
  {
    hide Recordable, RecordOf, Passes;
    if calls != [] {
      var front, last := calls[..|calls| - 1], calls[|calls| - 1];
      OneRecordPerCallIff(cfg, front);
      RecordedIff(cfg, last, Passes(cfg, front, last));
      OneMoreRecordable(cfg, calls);
      hide AllRecordable;
    }
  }

  lemma {:induction false} LoggedAt(cfg: Config, calls: seq<Call>, i: nat)
    requires AllRecordable(cfg, calls) && i < |calls|
    ensures |Logged(cfg, calls)| == |calls|
    ensures Some(Logged(cfg, calls)[i]) == RecordOf(cfg, calls[i], Passes(cfg, calls[..i], calls[i]))
    decreases |calls|
  {
    var n := |calls| - 1;
    var front := calls[..n];
    hide Recordable, RecordOf, Passes;
    OneRecordPerCallIff(cfg, calls);
    assert forall k | 0 <= k < n :: front[k] == calls[k];
    OneRecordPerCallIff(cfg, front);
    if i < n {
      LoggedAt(cfg, front, i);
      assert front[..i] == calls[..i];
    } else {
      assert calls[..i] == front;
    }
  }

  // The record tells of the call: when it was made, by whom, for which tool and
  // queue manager, with which parameters, how it ended and how long it took.
  predicate TellsCall(cfg: Config, call: Call, passes: bool, fields: Audit.Fields) {
    var a := Attempt(cfg.inventory, call, passes);
    var p := if call.verified.Returned? then Some(call.verified.value) else None;
    var tokens := Encoding.Encode(OrEmpty(call.params), cfg.depth);
    && Audit.Get(fields, "ts") == Some(Audit.Str(call.timestamp))
    && Audit.IsTextOrNull(Audit.Get(fields, "actor"), Some(if p.Some? then p.value.subject else Codes("unauthenticated")))
    && Audit.IsTextOrNull(Audit.Get(fields, "tenant"), if p.Some? then p.value.tenant else None)
    && Audit.IsTextOrNull(Audit.Get(fields, "tool"), Some(call.tool))
    && Audit.IsTextOrNull(Audit.Get(fields, "target_qm"), TargetQm(call))
    && tokens.Some? && Audit.Get(fields, "params_hash") == Some(Audit.Str(cfg.hashOf(tokens.value)))
    && Audit.Get(fields, "outcome") == Some(Audit.Str(a.outcome))
    && Audit.Get(fields, "duration_ms") == Some(Audit.Num(call.durationMs))
    && Audit.Get(fields, "error") == Some(if a.error.Some? then Audit.Str(a.error.value) else Audit.Null)
  }

  lemma RecordTellsCall(cfg: Config, call: Call, passes: bool)
    ensures var fields := RecordOf(cfg, call, passes);
            fields.Some? ==> TellsCall(cfg, call, passes, fields.value)
  {
    var a := Attempt(cfg.inventory, call, passes);
    hide TargetQm, OrEmpty, Codes, Attempt, Encoding.Encode, Audit.EventFields, Audit.Writable;
    var hash := Hashed(cfg, call);
    if hash.Some? && Audit.Writable(EventOf(call, a, hash.value)) {
      Audit.FieldsTellEvent(call.timestamp, EventOf(call, a, hash.value));
    }
  }

  // Parameters that Python takes for false are hashed as {}, all others as they are.
  lemma HashedParametersAre(cfg: Config, call: Call)
    ensures var p := call.params;
            var tokens :=
              if || p == Encoding.Null || p == Encoding.Bool(false) || p == Encoding.Int(0) || p == Encoding.Float(0.0)
                 || p == Encoding.Text([]) || p == Encoding.List(Encoding.Done)
              then Encoding.Encode(Encoding.Object(Encoding.Done), cfg.depth) else Encoding.Encode(p, cfg.depth);
            Hashed(cfg, call) == if tokens.Some? then Some(cfg.hashOf(tokens.value)) else None
  {
    hide Encoding.Encode;
  }

  // Two records carry the same hash exactly when the parameters they were made
  // for are encoded alike, unless the hash collides on the two.
  lemma ParamsHashTells(cfg: Config, c: Call, d: Call, cPasses: bool, dPasses: bool)
    requires Recordable(cfg, c) && Recordable(cfg, d)
    requires var s, t := Encoding.Encode(OrEmpty(c.params), cfg.depth), Encoding.Encode(OrEmpty(d.params), cfg.depth);
             s.Some? && t.Some? && cfg.hashOf(s.value) == cfg.hashOf(t.value) ==> s == t
    ensures RecordOf(cfg, c, cPasses).Some? && RecordOf(cfg, d, dPasses).Some?
    ensures Audit.Get(RecordOf(cfg, c, cPasses).value, "params_hash") == Audit.Get(RecordOf(cfg, d, dPasses).value, "params_hash")
       <==> Encoding.Encode(OrEmpty(c.params), cfg.depth) == Encoding.Encode(OrEmpty(d.params), cfg.depth)
  {
    RecordedIff(cfg, c, cPasses);
    RecordedIff(cfg, d, dPasses);
    RecordTellsCall(cfg, c, cPasses);
    RecordTellsCall(cfg, d, dPasses);
    hide RecordOf, Recordable, OrEmpty, TargetQm, Attempt, Codes, Encoding.Encode;
  }

  // If everything can be written, the records behind those the file started
  // with are those of the calls, one each and in order: the i-th tells of the
  // i-th call.
  lemma RecordsFollowTheCalls(server: MqSentinelServer, i: nat)
    requires server.Valid() && Audit.IsIntact(server.audit.hash, server.start)
    requires !Audit.Spoils(server.start, server.startOpen)
    requires AllRecordable(server.cfg, server.calls) && i < |server.calls|
    ensures var held, all := |Audit.Payloads(server.start)|, Audit.Payloads(server.audit.file.lines);
            var call := server.calls[i];
            var passes := Passes(server.cfg, server.calls[..i], call);
            && |all| == held + |server.calls|
            && RecordOf(server.cfg, call, passes) == Some(all[held + i])
            && TellsCall(server.cfg, call, passes, all[held + i])
            && Ending(server.cfg, call, passes) == Attempt(server.cfg.inventory, call, passes).result
  {
    var call := server.calls[i];
    var passes := Passes(server.cfg, server.calls[..i], call);
    LoggedAt(server.cfg, server.calls, i);
    RecordTellsCall(server.cfg, call, passes);
    hide *;
    hide MqSentinelServer.Valid;
  }

  // ---- The rate ----

  // The authenticated calls of a subject that were not denied and whose clock
  // reading lies in the window.
  function PassedInWindow(cfg: Config, calls: seq<Call>, subject: PyString, from: real, to: real): nat {
    if calls == [] then 0
    else
      var front, last := calls[..|calls| - 1], calls[|calls| - 1];
      PassedInWindow(cfg, front, subject, from, to)
      + if Passes(cfg, front, last) && last.verified.value.subject == subject && from <= last.now <= to
        then 1 else 0
  }

  lemma {:induction false} WindowOfPrefix(c: RateLimit.Config, h: seq<RateLimit.Request>, g: seq<RateLimit.Request>,
                                          from: real, to: real, n: nat)
    requires n <= |h| && h <= g
    ensures RateLimit.AdmittedInWindow(c, h, from, to, n) == RateLimit.AdmittedInWindow(c, g, from, to, n)
    decreases n
  {
    if n > 0 {
      WindowOfPrefix(c, h, g, from, to, n - 1);
      RateLimit.PrefixDecides(c, h, g, n - 1);
      assert h[n - 1] == g[n - 1];
    }
  }

  lemma OneMoreInWindow(c: RateLimit.Config, h: seq<RateLimit.Request>, q: RateLimit.Request, from: real, to: real)
    ensures RateLimit.AdmittedInWindow(c, h + [q], from, to, |h| + 1)
         == RateLimit.AdmittedInWindow(c, h, from, to, |h|)
            + if RateLimit.Admits(c, h + [q], |h|) && from <= q.now <= to then q.cost else 0.0
  {
    WindowOfPrefix(c, h, h + [q], from, to, |h|);
  }

  lemma {:induction false} PassedIsAdmitted(cfg: Config, calls: seq<Call>, subject: PyString, from: real, to: real)
    ensures var h := RateLimit.Past(LimiterCalls(calls), subject);
            && PassedInWindow(cfg, calls, subject, from, to) as real
                 == RateLimit.AdmittedInWindow(cfg.limit, h, from, to, |h|)
            && RateLimit.CostsNonNegative(h)
  {
    if calls != [] {
      var front, last := calls[..|calls| - 1], calls[|calls| - 1];
      var seen := LimiterCalls(front);
      PassedIsAdmitted(cfg, front, subject, from, to);
      if last.verified.Returned? {
        var h := RateLimit.Past(seen, subject);
        var q := RateLimit.Request(last.now, 1.0);
        assert LimiterCalls(calls) == seen + [LimiterCall(last)];
        RateLimit.PastAppend(seen, LimiterCall(last), subject);
        OneMoreInWindow(cfg.limit, h, q, from, to);
        if last.verified.value.subject == subject {
          assert Passes(cfg, front, last) <==> RateLimit.Admits(cfg.limit, h + [q], |h|);
        }
      } else {
        assert LimiterCalls(calls) == seen;
      }
    }
  }

  lemma SubjectIsWithinAllowance(cfg: Config, calls: seq<Call>, subject: PyString, from: real, to: real)
    requires cfg.limit.ratePerMinute >= 0 && cfg.limit.burst >= 0 && from <= to
    ensures PassedInWindow(cfg, calls, subject, from, to) as real
         <= cfg.limit.Burst() + RateLimit.Earned(cfg.limit, from, to)
  {
    var h := RateLimit.Past(LimiterCalls(calls), subject);
    PassedIsAdmitted(cfg, calls, subject, from, to);
    RateLimit.WindowIsWithinAllowance(cfg.limit, h, from, to, |h|);
  }

  // In any window, whatever the order of the clock readings and whatever else
  // is going on, a subject's calls that are not denied number at most the burst
  // and a sixtieth of the rate per second.
  lemma EverySubjectIsBounded(cfg: Config, calls: seq<Call>, subject: PyString, from: real, to: real)
    requires cfg.limit.ratePerMinute >= 0 && cfg.limit.burst >= 0 && from <= to
    ensures PassedInWindow(cfg, calls, subject, from, to) as real
         <= cfg.limit.burst as real + (to - from) * cfg.limit.ratePerMinute as real / 60.0
  {
    SubjectIsWithinAllowance(cfg, calls, subject, from, to);
    RateLimit.AllowanceIs(cfg.limit, from, to);
    hide *;
  }
}
