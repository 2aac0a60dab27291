// Dead-letter queue headers to findings.
module Dlq {
  import opened Wrappers
  import opened Seqs
  import opened Findings

  // The parts of a dead-letter header that the matcher looks at.
  datatype Header = Header(reason: int, dest: string, backouts: int)

  const BACKOUT_THRESHOLD := 5

  // ---- Which destination is named ----

  function Count(ds: seq<string>, d: string): nat {
    multiset(ds)[d]
  }

  // The earliest element of ds among those occurring most often in all.
  function FirstMost(ds: seq<string>, all: seq<string>): string
    requires ds != []
  {
    if |ds| == 1 then ds[0]
    else
      var later := FirstMost(ds[1..], all);
      if Count(all, ds[0]) >= Count(all, later) then ds[0] else later
  }

  // Counter(ds).most_common(1)
  function MostCommon(ds: seq<string>): string
    requires ds != []
  {
    FirstMost(ds, ds)
  }

  lemma {:induction false} FirstMostIsFirstAndMost(ds: seq<string>, all: seq<string>) returns (i: nat)
    requires ds != []
    ensures i < |ds| && ds[i] == FirstMost(ds, all)
    ensures forall j | 0 <= j < |ds| :: Count(all, ds[j]) <= Count(all, ds[i])
    ensures forall j | 0 <= j < i :: Count(all, ds[j]) < Count(all, ds[i])
  {
    i := 0;
    if |ds| > 1 {
      var k := FirstMostIsFirstAndMost(ds[1..], all);
      i := if Count(all, ds[0]) >= Count(all, ds[1..][k]) then 0 else k + 1;
      forall j | 1 <= j < |ds| ensures Count(all, ds[j]) == Count(all, ds[1..][j - 1]) {
      }
    }
  }

  // The destination named occurs at least as often as any other, and strictly
  // more often than those that first occur before it.
  lemma MostCommonIsFirstMaximum(ds: seq<string>, i: nat, j: nat)
    requires i < |ds| && j < |ds|
    requires ds[i] == MostCommon(ds) && forall k | 0 <= k < i :: ds[k] != ds[i]
    ensures Count(ds, ds[j]) <= Count(ds, ds[i])
    ensures j < i ==> Count(ds, ds[j]) < Count(ds, ds[i])
  {
    var first := FirstMostIsFirstAndMost(ds, ds);
  }

  // ---- The findings ----

  function DepthSeverity(depth: int): Severity {
    if depth > 10000 then Critical
    else if depth > 1000 then High
    else if depth > 100 then Medium
    else Low
  }

  function DepthFinding(queue: string, depth: int): Finding {
    Finding("Dead-letter queue " + queue + " depth=" + Decimal(depth), DepthSeverity(depth), None, None,
            [OnQueue(DepthAndAge, queue), OnManager(FullQueues), OnQueue(QueueStatus, queue)],
            [OnQueue(Depth, queue)])
  }

  function ReasonSeverity(reason: int): Severity {
    if reason in {2035, 2051, 2053} then High
    else if reason == 2079 then Low
    else Medium
  }

  function FixSteps(reason: int, top: string): seq<Command> {
    var dest := if top == [] then "<destination>" else top;
    if reason == 2035 then [OnQueue(Authority, dest), OnManager(ConnectionAuth)]
    else if reason == 2080 then [OnQueue(MaxLength, dest), OnManager(ChannelLengths)]
    else if reason == 2030 then [OnQueue(MaxLength, dest), OnManager(ManagerLength)]
    else if reason == 2051 then [OnQueue(PutGet, dest), OnQueue(QueueStatus, dest)]
    else if reason == 2053 then [OnQueue(DepthAndLimit, dest), OnQueue(QueueStatus, dest)]
    else if reason == 2079 then [OnQueue(MaxLength, dest)]
    else [OnQueue(Attributes, dest)]
  }

  function DestOf(h: Header): string {
    h.dest
  }

  function ReasonFinding(queue: string, reason: int, group: seq<Header>): Finding {
    Finding("DLQ contains " + Decimal(|group|) + " message(s) with reason " + Decimal(reason),
            ReasonSeverity(reason), Some(reason), None,
            FixSteps(reason, if group == [] then "" else MostCommon(Map(group, DestOf))),
            [OnQueue(Depth, queue)])
  }

  function BackoutFinding(queue: string, n: nat): Finding {
    Finding("DLQ contains " + Decimal(n) + " message(s) with backout_count >= " + Decimal(BACKOUT_THRESHOLD),
            High, None, None,
            [OnQueue(Backout, queue), OnManager(BackoutQueues)],
            [OnQueue(Depth, queue)])
  }

  // ---- Groups ----

  function HasReason(reason: int): Header -> bool {
    (h: Header) => h.reason == reason
  }

  function Group(headers: seq<Header>, reason: int): seq<Header> {
    Filter(headers, HasReason(reason))
  }

  predicate Occurs(headers: seq<Header>, reason: int) {
    exists i | 0 <= i < |headers| :: headers[i].reason == reason
  }

  lemma GroupIsNonEmptyIffOccurs(headers: seq<Header>, reason: int)
    ensures Group(headers, reason) != [] <==> Occurs(headers, reason)
  {
    var group := Group(headers, reason);
    if group != [] {
      FilterHolds(headers, HasReason(reason), group[0]);
    }
    if Occurs(headers, reason) {
      var i :| 0 <= i < |headers| && headers[i].reason == reason;
      FilterHolds(headers, HasReason(reason), headers[i]);
    }
  }

  ghost predicate Grouped(byReason: map<int, seq<Header>>, headers: seq<Header>) {
    && (forall reason :: reason in byReason <==> Occurs(headers, reason))
    && (forall reason <- byReason :: byReason[reason] == Group(headers, reason))
  }

  method GroupByReason(headers: seq<Header>) returns (byReason: map<int, seq<Header>>)
    ensures Grouped(byReason, headers)
  {
    byReason := map[];
    for i := 0 to |headers|
      invariant Grouped(byReason, headers[..i])
    {
      var h := headers[i];
      ghost var before := byReason;
      var group := if h.reason in byReason then byReason[h.reason] else [];
      byReason := byReason[h.reason := group + [h]];
      GroupStep(before, headers, i);
    }
    assert headers[..|headers|] == headers;
  }

  lemma GroupStep(byReason: map<int, seq<Header>>, headers: seq<Header>, i: nat)
    requires i < |headers| && Grouped(byReason, headers[..i])
    ensures var h := headers[i];
            var group := if h.reason in byReason then byReason[h.reason] else [];
            Grouped(byReason[h.reason := group + [h]], headers[..i + 1])
  {
    var h := headers[i];
    GroupIsNonEmptyIffOccurs(headers[..i], h.reason);
    assert headers[..i + 1][i] == h;
    forall reason ensures Occurs(headers[..i + 1], reason) <==> Occurs(headers[..i], reason) || reason == h.reason {
      if Occurs(headers[..i], reason) {
        var j :| 0 <= j < i && headers[..i][j].reason == reason;
        assert headers[..i + 1][j].reason == reason;
      }
    }
    forall reason ensures Group(headers[..i + 1], reason)
                       == Group(headers[..i], reason) + if reason == h.reason then [h] else [] {
      FilterStep(headers, i, HasReason(reason));
    }
    hide Group, Occurs;
  }

  // ---- The matcher ----

  function DepthPart(queue: string, depth: int): seq<Finding> {
    if depth > 0 then [DepthFinding(queue, depth)] else []
  }

  function ReasonFindingIn(queue: string, headers: seq<Header>): int -> Finding {
    (reason: int) => ReasonFinding(queue, reason, Group(headers, reason))
  }

  predicate BackedOut(h: Header) {
    h.backouts >= BACKOUT_THRESHOLD
  }

  function BackoutPart(queue: string, headers: seq<Header>): seq<Finding> {
    var n := |Filter(headers, BackedOut)|;
    if n > 0 then [BackoutFinding(queue, n)] else []
  }

  predicate Increasing(s: seq<int>) {
    forall i, j | 0 <= i < j < |s| :: s[i] < s[j]
  }

  lemma SomeOf<T>(s: set<T>) returns (x: T)
    requires s != {}
    ensures x in s
  {
    x :| x in s;
  }

  lemma {:induction false} SmallestOf(s: set<int>, z: int) returns (x: int)
    requires z in s
    ensures x in s && forall y <- s :: x <= y
    decreases |s|
  {
    var rest := s - {z};
    x := z;
    if w :| w in rest {
      var least := SmallestOf(rest, w);
      x := if z <= least then z else least;
    }
    forall y | y in s ensures x <= y {
      assert y == z || y in rest;
    }
  }

  // The non-zero reasons that occur, in increasing order.
  ghost predicate ReasonsOf(reasons: seq<int>, headers: seq<Header>) {
    Increasing(reasons) && forall reason :: reason in reasons <==> reason != 0 && Occurs(headers, reason)
  }

  // The reasons visited so far are those below all that are left.
  ghost predicate Visited(reasons: seq<int>, left: set<int>, all: set<int>) {
    && Increasing(reasons) && left <= all
    && (forall reason :: reason in reasons <==> reason != 0 && reason in all - left)
    && (forall x <- all - left, y <- left :: x < y)
  }

  lemma VisitSmallest(reasons: seq<int>, left: set<int>, all: set<int>, reason: int)
    requires Visited(reasons, left, all) && reason in left && forall y <- left :: reason <= y
    ensures reason == 0 ==> Visited(reasons, left - {reason}, all)
    ensures reason != 0 ==> Visited(reasons + [reason], left - {reason}, all)
  {
    forall i | 0 <= i < |reasons| ensures reasons[i] < reason {
      assert reasons[i] in reasons;
    }
    forall x, y | x in all - (left - {reason}) && y in left - {reason} ensures x < y {
      assert x == reason || x in all - left;
    }
  }

  lemma NothingVisited(queue: string, headers: seq<Header>, all: set<int>)
    ensures Visited([], all, all) && Map([], ReasonFindingIn(queue, headers)) == []
  {
  }

  lemma ReportGroup(queue: string, headers: seq<Header>, byReason: map<int, seq<Header>>, reason: int)
    requires Grouped(byReason, headers) && reason in byReason
    ensures ReasonFindingIn(queue, headers)(reason) == ReasonFinding(queue, reason, byReason[reason])
  {
  }

  lemma AllVisited(reasons: seq<int>, headers: seq<Header>, byReason: map<int, seq<Header>>)
    requires Grouped(byReason, headers) && Visited(reasons, {}, byReason.Keys)
    ensures ReasonsOf(reasons, headers)
  {
  }

  // One finding per non-zero reason, in sorted order.
  method MatchReasons(queue: string, headers: seq<Header>) returns (findings: seq<Finding>)
    ensures exists reasons :: ReasonsOf(reasons, headers) && findings == Map(reasons, ReasonFindingIn(queue, headers))
  {
    findings := [];
    ghost var reasons: seq<int> := [];
    var byReason := GroupByReason(headers);
    var left := byReason.Keys;
    NothingVisited(queue, headers, left);
    hide *;
    while left != {}
      invariant left <= byReason.Keys
      invariant Visited(reasons, left, byReason.Keys)
      invariant findings == Map(reasons, ReasonFindingIn(queue, headers))
      decreases left
    {
      ghost var any := SomeOf(left);
      ghost var smallest := SmallestOf(left, any);
      var reason :| reason in left && forall y <- left :: reason <= y;
      VisitSmallest(reasons, left, byReason.Keys, reason);
      left := left - {reason};
      if reason == 0 {
        continue;
      }
      MapStep(reasons, reason, ReasonFindingIn(queue, headers));
      ReportGroup(queue, headers, byReason, reason);
      findings := findings + [ReasonFinding(queue, reason, byReason[reason])];
      reasons := reasons + [reason];
    }
    AllVisited(reasons, headers, byReason);
  }

  lemma NothingToReport(queue: string)
    ensures ReasonsOf([], [])
    ensures Map([], ReasonFindingIn(queue, [])) == [] && Filter([], BackedOut) == []
  {
  }

  method MatchDlqFindings(queue: string, depth: int, headers: seq<Header>)
    returns (findings: seq<Finding>)
    ensures exists reasons ::
      && ReasonsOf(reasons, headers)
      && findings ==
         DepthPart(queue, depth) + Map(reasons, ReasonFindingIn(queue, headers)) + BackoutPart(queue, headers)
  {
    findings := [];
    hide Filter, Map, Occurs, Group, ReasonsOf, ReasonFindingIn, DepthFinding, BackoutFinding;
    if depth == 0 && headers == [] {
      NothingToReport(queue);
      assert ReasonsOf([], headers);
      return;
    }
    if depth > 0 {
      findings := findings + [DepthFinding(queue, depth)];
    }
    var grouped := MatchReasons(queue, headers);
    findings := findings + grouped;
    var highBackout := Filter(headers, BackedOut);
    if highBackout != [] {
      findings := findings + [BackoutFinding(queue, |highBackout|)];
    }
  }

  // ---- What the findings say ----

  // A queue that is not empty is reported by its depth.
  lemma DepthReportTells(queue: string, depth: int)
    ensures depth <= 0 ==> DepthPart(queue, depth) == []
    ensures depth > 0 ==>
      |DepthPart(queue, depth)| == 1 && var f := DepthPart(queue, depth)[0];
      && (f.severity == Critical <==> depth >= 10001) && (f.severity == High <==> 1001 <= depth <= 10000)
      && (f.severity == Medium <==> 101 <= depth <= 1000) && (f.severity == Low <==> depth <= 100)
      && f.issue == "Dead-letter queue " + queue + " depth=" + Decimal(depth)
      && f.reasonCode == None && f.amqCode == None
      && f.fixSteps == [OnQueue(DepthAndAge, queue), OnManager(FullQueues), OnQueue(QueueStatus, queue)]
      && f.verifyCommands == [OnQueue(Depth, queue)]
  {
    hide Decimal;
  }

  // A reason is reported with the number of its headers, as HIGH for 2035, 2051
  // and 2053 and as LOW for 2079.
  lemma ReasonReportTells(queue: string, reason: int, headers: seq<Header>)
    ensures var f := ReasonFindingIn(queue, headers)(reason);
            && f.severity == (if reason == 2035 || reason == 2051 || reason == 2053 then High
                              else if reason == 2079 then Low else Medium)
            && f.issue == "DLQ contains " + Decimal(|Group(headers, reason)|)
                          + " message(s) with reason " + Decimal(reason)
            && f.reasonCode == Some(reason) && f.amqCode == None
            && f.verifyCommands == [OnQueue(Depth, queue)]
  {
    hide Decimal, FixSteps, Group, MostCommon;
  }

  // Its fix steps concern the destination named most often, if it has a name.
  lemma ReasonReportAdvises(queue: string, reason: int, headers: seq<Header>)
    requires Group(headers, reason) != []
    ensures var group := Group(headers, reason);
            var top := MostCommon(seq(|group|, i requires 0 <= i < |group| => group[i].dest));
            var dest := if top == "" then "<destination>" else top;
            ReasonFindingIn(queue, headers)(reason).fixSteps ==
              if reason == 2035 then [OnQueue(Authority, dest), OnManager(ConnectionAuth)]
              else if reason == 2080 then [OnQueue(MaxLength, dest), OnManager(ChannelLengths)]
              else if reason == 2030 then [OnQueue(MaxLength, dest), OnManager(ManagerLength)]
              else if reason == 2051 then [OnQueue(PutGet, dest), OnQueue(QueueStatus, dest)]
              else if reason == 2053 then [OnQueue(DepthAndLimit, dest), OnQueue(QueueStatus, dest)]
              else if reason == 2079 then [OnQueue(MaxLength, dest)]
              else [OnQueue(Attributes, dest)]
  {
    var group := Group(headers, reason);
    assert Map(group, DestOf) == seq(|group|, i requires 0 <= i < |group| => group[i].dest);
    hide Decimal, Group, MostCommon;
  }

  // Messages backed out five times or more are reported together.
  lemma BackoutReportTells(queue: string, headers: seq<Header>)
    ensures var found := BackoutPart(queue, headers);
            && (found == [] <==> forall h <- headers :: h.backouts < 5)
            && (found != [] ==>
                  && |found| == 1 && found[0].severity == High
                  && found[0].reasonCode == None && found[0].amqCode == None
                  && found[0].issue == "DLQ contains " + Decimal(BackedOutCount(headers))
                                       + " message(s) with backout_count >= 5"
                  && found[0].fixSteps == [OnQueue(Backout, queue), OnManager(BackoutQueues)]
                  && found[0].verifyCommands == [OnQueue(Depth, queue)])
  {
    CountsBackedOut(headers);
    assert Decimal(5) == "5";
    forall h ensures h in Filter(headers, BackedOut) <==> h in headers && BackedOut(h) {
      FilterHolds(headers, BackedOut, h);
    }
    var some := Filter(headers, BackedOut);
    assert some != [] ==> some[0] in some;
    hide Decimal, Filter;
    if some != [] {
      assert BackoutFinding(queue, |some|).issue
          == "DLQ contains " + Decimal(|some|) + " message(s) with backout_count >= " + "5";
    }
  }

  function BackedOutCount(headers: seq<Header>): nat {
    if headers == [] then 0
    else (if headers[0].backouts >= 5 then 1 else 0) + BackedOutCount(headers[1..])
  }

  lemma {:induction false} CountsBackedOut(headers: seq<Header>)
    ensures |Filter(headers, BackedOut)| == BackedOutCount(headers)
  {
    if headers != [] {
      CountsBackedOut(headers[1..]);
    }
  }

  // ---- Conservation ----

  // How many headers the findings for the given reasons count.
  function Counted(reasons: seq<int>, headers: seq<Header>): nat {
    if reasons == [] then 0 else |Group(headers, reasons[0])| + Counted(reasons[1..], headers)
  }

  lemma {:induction false} CountOneMore(reasons: seq<int>, h: Header, rest: seq<Header>)
    requires Increasing(reasons)
    ensures Counted(reasons, [h] + rest) == Counted(reasons, rest) + if h.reason in reasons then 1 else 0
  {
    if reasons != [] {
      CountOneMore(reasons[1..], h, rest);
      FilterCons(h, rest, HasReason(reasons[0]));
      assert h.reason == reasons[0] ==> h.reason !in reasons[1..];
    }
  }

  // Every header is counted exactly once: by the finding for its reason, or
  // among those without a reason.
  lemma {:induction false} EveryHeaderIsCountedOnce(reasons: seq<int>, headers: seq<Header>)
    requires Increasing(reasons) && 0 !in reasons
    requires forall i | 0 <= i < |headers| :: headers[i].reason == 0 || headers[i].reason in reasons
    ensures Counted(reasons, headers) + |Group(headers, 0)| == |headers|
    decreases |headers|
  {
    if headers == [] {
      NothingToCount(reasons);
    } else {
      var h, rest := headers[0], headers[1..];
      assert headers == [h] + rest;
      EveryHeaderIsCountedOnce(reasons, rest);
      CountOneMore(reasons, h, rest);
      FilterCons(h, rest, HasReason(0));
    }
  }

  lemma {:induction false} NothingToCount(reasons: seq<int>)
    ensures Counted(reasons, []) == 0
  {
    if reasons != [] {
      NothingToCount(reasons[1..]);
    }
  }

  lemma ReasonFindingsConserveHeaders(reasons: seq<int>, headers: seq<Header>)
    requires ReasonsOf(reasons, headers)
    ensures Counted(reasons, headers) + |Group(headers, 0)| == |headers|
    ensures forall reason <- reasons :: Group(headers, reason) != []
  {
    forall i | 0 <= i < |headers| ensures headers[i].reason == 0 || headers[i].reason in reasons {
      assert Occurs(headers, headers[i].reason);
    }
    EveryHeaderIsCountedOnce(reasons, headers);
    forall reason | reason in reasons ensures Group(headers, reason) != [] {
      GroupIsNonEmptyIffOccurs(headers, reason);
    }
  }
}
