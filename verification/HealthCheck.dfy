// The composite report: run the checks, sort the findings, summarise them.
module HealthCheck {
  import opened Wrappers
  import opened Seqs
  import opened Findings
  import opened Sorting
  import Channels

  datatype Item = Item(category: string, finding: Finding)

  // ---- Ranking ----

  function SeverityRank(s: Severity): nat {
    match s
    case Critical => 0
    case High => 1
    case Medium => 2
    case Low => 3
    case Info => 4
  }

  function CategoryRank(category: string): nat {
    if category == "channels" then 0
    else if category == "dlq" then 1
    else if category == "cluster" then 2
    else 99
  }

  function SortKey(item: Item): Key {
    Key(SeverityRank(item.finding.severity), CategoryRank(item.category), item.finding.issue)
  }

  // ---- Running the checks ----

  // What a check did: its findings, or the name of the exception it raised.
  type Outcome = Result<seq<Finding>, string>

  datatype Skipped = Skipped(category: string, error: string)

  class CheckLog {
    var run: seq<string>
    var skipped: seq<Skipped>

    constructor ()
      ensures run == [] && skipped == []
    {
      run, skipped := [], [];
    }

    // A failing check is noted and yields nothing.
    method SafeRun(category: string, outcome: Outcome) returns (findings: Option<seq<Finding>>)
      modifies this
      ensures outcome.Ok? ==>
        && findings == Some(outcome.value)
        && run == old(run) + [category] && skipped == old(skipped)
      ensures outcome.Err? ==>
        && findings == None
        && run == old(run) && skipped == old(skipped) + [Skipped(category, outcome.error)]
    {
      match outcome
      case Err(error) =>
        skipped := skipped + [Skipped(category, error)];
        return None;
      case Ok(value) =>
        run := run + [category];
        return Some(value);
    }
  }

  function InCategory(category: string): Finding -> Item {
    (f: Finding) => Item(category, f)
  }

  function Contribution(category: string, outcome: Outcome): seq<Item> {
    if outcome.Ok? then Map(outcome.value, InCategory(category)) else []
  }

  function AllItems(channels: Outcome, dlq: Outcome, cluster: Outcome): seq<Item> {
    Contribution("channels", channels) + Contribution("dlq", dlq) + Contribution("cluster", cluster)
  }

  // ---- The summary ----

  datatype Summary = Summary(
    total: nat,
    overall: string,
    bySeverity: map<Severity, nat>,
    byCategory: map<string, nat>,
    top: seq<TopIssue>)

  datatype TopIssue = TopIssue(severity: Severity, category: string, issue: string)

  function TopIssueOf(item: Item): TopIssue {
    TopIssue(item.finding.severity, item.category, item.finding.issue)
  }

  function OfSeverity(s: Severity): Item -> bool {
    (item: Item) => item.finding.severity == s
  }

  function OfCategory(category: string): Item -> bool {
    (item: Item) => item.category == category
  }

  function SeverityCount(items: seq<Item>, s: Severity): nat {
    |Filter(items, OfSeverity(s))|
  }

  function CategoryCount(items: seq<Item>, category: string): nat {
    |Filter(items, OfCategory(category))|
  }

  const SEVERITIES := {Critical, High, Medium, Low, Info}
  const CATEGORIES := {"channels", "dlq", "cluster"}

  // counts.get(key, 0)
  function Get<K>(counts: map<K, nat>, key: K): nat {
    if key in counts then counts[key] else 0
  }

  function Overall(items: seq<Item>): string {
    if SeverityCount(items, Critical) > 0 then "CRITICAL"
    else if SeverityCount(items, High) > 0 then "HIGH"
    else if SeverityCount(items, Medium) > 0 then "MEDIUM"
    else if SeverityCount(items, Low) > 0 then "LOW"
    else "OK"
  }

  function Front(items: seq<Item>, n: nat): seq<Item> {
    if |items| <= n then items else items[..n]
  }

  function SummaryOf(items: seq<Item>): Summary {
    Summary(|items|, Overall(items),
            map s | s in SEVERITIES :: SeverityCount(items, s),
            map c | c in CATEGORIES :: CategoryCount(items, c),
            Map(Front(items, 5), TopIssueOf))
  }

  ghost predicate Counts(bySeverity: map<Severity, nat>, byCategory: map<string, nat>, items: seq<Item>) {
    && (forall s :: Get(bySeverity, s) == SeverityCount(items, s))
    && (forall c :: Get(byCategory, c) == CategoryCount(items, c))
  }

  lemma CountStep(bySeverity: map<Severity, nat>, byCategory: map<string, nat>, items: seq<Item>, i: nat)
    requires i < |items| && Counts(bySeverity, byCategory, items[..i])
    ensures var s, c := items[i].finding.severity, items[i].category;
            Counts(bySeverity[s := Get(bySeverity, s) + 1], byCategory[c := Get(byCategory, c) + 1], items[..i + 1])
  {
    var more := items[..i + 1];
    forall s ensures SeverityCount(more, s)
                  == SeverityCount(items[..i], s) + if items[i].finding.severity == s then 1 else 0 {
      FilterStep(items, i, OfSeverity(s));
    }
    forall c ensures CategoryCount(more, c)
                  == CategoryCount(items[..i], c) + if items[i].category == c then 1 else 0 {
      FilterStep(items, i, OfCategory(c));
    }
    hide SeverityCount, CategoryCount;
  }

  lemma {:induction false} SeverityCountsSum(items: seq<Item>)
    ensures SeverityCount(items, Critical) + SeverityCount(items, High) + SeverityCount(items, Medium)
            + SeverityCount(items, Low) + SeverityCount(items, Info) == |items|
  {
    if items != [] {
      SeverityCountsSum(items[1..]);
      assert items == [items[0]] + items[1..];
      FilterCons(items[0], items[1..], OfSeverity(Critical));
      FilterCons(items[0], items[1..], OfSeverity(High));
      FilterCons(items[0], items[1..], OfSeverity(Medium));
      FilterCons(items[0], items[1..], OfSeverity(Low));
      FilterCons(items[0], items[1..], OfSeverity(Info));
      hide Filter;
    }
  }

  method TopIssues(items: seq<Item>) returns (top: seq<TopIssue>)
    ensures top == Map(Front(items, 5), TopIssueOf)
  {
    top := [];
    var front := Front(items, 5);
    for i := 0 to |front|
      invariant top == Map(front[..i], TopIssueOf)
    {
      MapStep(front[..i], front[i], TopIssueOf);
      assert front[..i + 1] == front[..i] + [front[i]];
      top := top + [TopIssueOf(front[i])];
    }
    assert front[..|front|] == front;
  }

  method BuildSummary(items: seq<Item>) returns (summary: Summary)
    ensures summary == SummaryOf(items)
  {
    var bySeverity: map<Severity, nat> := map[];
    var byCategory: map<string, nat> := map[];
    assert Counts(bySeverity, byCategory, items[..0]);
    hide Counts, SeverityCount, CategoryCount, Get, Map;
    for i := 0 to |items|
      invariant Counts(bySeverity, byCategory, items[..i])
    {
      CountStep(bySeverity, byCategory, items, i);
      var s, c := items[i].finding.severity, items[i].category;
      bySeverity := bySeverity[s := Get(bySeverity, s) + 1];
      byCategory := byCategory[c := Get(byCategory, c) + 1];
    }
    assert items[..|items|] == items;
    CountsAreExact(bySeverity, byCategory, items);
    SeverityCountsSum(items);
    var top := TopIssues(items);
    var total := Get(bySeverity, Critical) + Get(bySeverity, High) + Get(bySeverity, Medium)
               + Get(bySeverity, Low) + Get(bySeverity, Info);
    var overall :=
      if Get(bySeverity, Critical) > 0 then "CRITICAL"
      else if Get(bySeverity, High) > 0 then "HIGH"
      else if Get(bySeverity, Medium) > 0 then "MEDIUM"
      else if Get(bySeverity, Low) > 0 then "LOW"
      else "OK";
    summary := Summary(total, overall,
                       map s | s in SEVERITIES :: Get(bySeverity, s),
                       map c | c in CATEGORIES :: Get(byCategory, c),
                       top);
  }

  lemma CountsAreExact(bySeverity: map<Severity, nat>, byCategory: map<string, nat>, items: seq<Item>)
    requires Counts(bySeverity, byCategory, items)
    ensures forall s :: Get(bySeverity, s) == SeverityCount(items, s)
    ensures forall c :: Get(byCategory, c) == CategoryCount(items, c)
  {
  }

  // ---- The composite ----

  datatype Report = Report(findings: seq<Item>, summary: Summary, run: seq<string>, skipped: seq<Skipped>)

  function RunOf(category: string, outcome: Outcome): seq<string> {
    if outcome.Ok? then [category] else []
  }

  function SkippedOf(category: string, outcome: Outcome): seq<Skipped> {
    if outcome.Err? then [Skipped(category, outcome.error)] else []
  }

  function ReportOf(channels: Outcome, dlq: Outcome, cluster: Outcome): Report {
    var findings := StableSort(AllItems(channels, dlq, cluster), SortKey);
    Report(findings, SummaryOf(findings),
           RunOf("channels", channels) + RunOf("dlq", dlq) + RunOf("cluster", cluster),
           SkippedOf("channels", channels) + SkippedOf("dlq", dlq) + SkippedOf("cluster", cluster))
  }

  method FullHealthCheck(channels: Outcome, dlq: Outcome, cluster: Outcome) returns (report: Report)
    ensures report == ReportOf(channels, dlq, cluster)
  {
    var log := new CheckLog();
    var all: seq<Item> := [];
    var found := log.SafeRun("channels", channels);
    if found.Some? {
      all := all + Map(found.value, InCategory("channels"));
    }
    assert all == Contribution("channels", channels);
    assert log.run == RunOf("channels", channels) && log.skipped == SkippedOf("channels", channels);
    hide Map;
    found := log.SafeRun("dlq", dlq);
    if found.Some? {
      all := all + Map(found.value, InCategory("dlq"));
    }
    assert all == Contribution("channels", channels) + Contribution("dlq", dlq);
    assert log.run == RunOf("channels", channels) + RunOf("dlq", dlq);
    assert log.skipped == SkippedOf("channels", channels) + SkippedOf("dlq", dlq);
    found := log.SafeRun("cluster", cluster);
    if found.Some? {
      all := all + Map(found.value, InCategory("cluster"));
    }
    assert all == AllItems(channels, dlq, cluster);
    hide StableSort, SummaryOf;
    var findings := StableSort(all, SortKey);
    var summary := BuildSummary(findings);
    report := Report(findings, summary, log.run, log.skipped);
  }

  // ---- Nothing is lost ----

  lemma ContributionHasCategory(category: string, outcome: Outcome, c: string)
    ensures Filter(Contribution(category, outcome), OfCategory(c))
         == if category == c then Contribution(category, outcome) else []
  {
    AllOrNothing(Contribution(category, outcome), OfCategory(c), category == c);
  }

  lemma {:induction false} AllOrNothing<T>(s: seq<T>, p: T -> bool, b: bool)
    requires forall i | 0 <= i < |s| :: p(s[i]) == b
    ensures Filter(s, p) == if b then s else []
  {
    if s != [] {
      AllOrNothing(s[1..], p, b);
    }
  }

  function OutcomeOf(c: string, channels: Outcome, dlq: Outcome, cluster: Outcome): Outcome {
    if c == "channels" then channels
    else if c == "dlq" then dlq
    else if c == "cluster" then cluster
    else Err("")
  }

  lemma ItemsOfCategory(channels: Outcome, dlq: Outcome, cluster: Outcome, c: string)
    ensures Filter(AllItems(channels, dlq, cluster), OfCategory(c))
         == Contribution(c, OutcomeOf(c, channels, dlq, cluster))
  {
    var a, b, d := Contribution("channels", channels), Contribution("dlq", dlq), Contribution("cluster", cluster);
    var p := OfCategory(c);
    ContributionHasCategory("channels", channels, c);
    ContributionHasCategory("dlq", dlq, c);
    ContributionHasCategory("cluster", cluster, c);
    hide Filter, Map, OfCategory;
    FilterConcat(a + b, d, p);
    FilterConcat(a, b, p);
  }

  // In each category the report holds exactly what the check returned, and
  // nothing if the check failed, whatever the other checks did.
  lemma EachCheckIsKeptWhole(channels: Outcome, dlq: Outcome, cluster: Outcome, c: string)
    ensures multiset(Filter(ReportOf(channels, dlq, cluster).findings, OfCategory(c)))
         == multiset(Contribution(c, OutcomeOf(c, channels, dlq, cluster)))
  {
    var all := AllItems(channels, dlq, cluster);
    hide Filter, StableSort, SummaryOf, AllItems, Contribution, OutcomeOf;
    SortPermutes(all, SortKey);
    FilterPermutes(StableSort(all, SortKey), all, OfCategory(c));
    ItemsOfCategory(channels, dlq, cluster, c);
  }

  // ---- The summary agrees with the list ----

  function SeverityName(s: Severity): string {
    match s
    case Critical => "CRITICAL"
    case High => "HIGH"
    case Medium => "MEDIUM"
    case Low => "LOW"
    case Info => "INFO"
  }

  lemma CountIsPositiveIff(items: seq<Item>, s: Severity)
    ensures SeverityCount(items, s) > 0 <==> exists i | 0 <= i < |items| :: items[i].finding.severity == s
  {
    var some := Filter(items, OfSeverity(s));
    if some != [] {
      FilterHolds(items, OfSeverity(s), some[0]);
    }
    if i :| 0 <= i < |items| && items[i].finding.severity == s {
      FilterHolds(items, OfSeverity(s), items[i]);
    }
  }

  lemma NothingRanksBefore(items: seq<Item>, s: Severity)
    requires Sorted(items, SortKey) && items != []
    ensures SeverityRank(s) < SeverityRank(items[0].finding.severity) ==> SeverityCount(items, s) == 0
    ensures SeverityCount(items, items[0].finding.severity) > 0
  {
    CountIsPositiveIff(items, s);
    CountIsPositiveIff(items, items[0].finding.severity);
    if SeverityCount(items, s) > 0 {
      var i :| 0 <= i < |items| && items[i].finding.severity == s;
      assert i > 0 ==> KeyLe(SortKey(items[0]), SortKey(items[i]));
    }
  }

  // The overall status is the severity of the first finding; with no finding,
  // or nothing but INFO, it is OK.
  lemma OverallIsTheFirstSeverity(items: seq<Item>)
    requires Sorted(items, SortKey)
    ensures SummaryOf(items).overall ==
      if items == [] || items[0].finding.severity == Info then "OK" else SeverityName(items[0].finding.severity)
  {
    if items != [] {
      NothingRanksBefore(items, Critical);
      NothingRanksBefore(items, High);
      NothingRanksBefore(items, Medium);
      NothingRanksBefore(items, Low);
      hide SeverityCount, CategoryCount, Sorted, Front, Map;
    }
  }

  // The counts add up to the total.
  lemma CountsSumToTotal(channels: Outcome, dlq: Outcome, cluster: Outcome)
    ensures var report := ReportOf(channels, dlq, cluster);
            var bySeverity, byCategory := report.summary.bySeverity, report.summary.byCategory;
            && bySeverity[Critical] + bySeverity[High] + bySeverity[Medium] + bySeverity[Low] + bySeverity[Info]
                 == report.summary.total
            && byCategory["channels"] + byCategory["dlq"] + byCategory["cluster"] == report.summary.total
            && report.summary.total == |report.findings|
  {
    var items := ReportOf(channels, dlq, cluster).findings;
    SeverityCountsSum(items);
    CategoryCountIs(channels, dlq, cluster, "channels");
    CategoryCountIs(channels, dlq, cluster, "dlq");
    CategoryCountIs(channels, dlq, cluster, "cluster");
    SortPermutes(AllItems(channels, dlq, cluster), SortKey);
    SameSize(items, AllItems(channels, dlq, cluster));
    hide StableSort, SeverityCount, CategoryCount, Contribution;
  }

  lemma CategoryCountIs(channels: Outcome, dlq: Outcome, cluster: Outcome, c: string)
    ensures CategoryCount(ReportOf(channels, dlq, cluster).findings, c)
         == |Contribution(c, OutcomeOf(c, channels, dlq, cluster))|
  {
    EachCheckIsKeptWhole(channels, dlq, cluster, c);
    SameSize(Filter(ReportOf(channels, dlq, cluster).findings, OfCategory(c)),
             Contribution(c, OutcomeOf(c, channels, dlq, cluster)));
  }

  // The top issues are the first five findings, and nothing behind them is more severe.
  lemma TopIssuesAreTheWorst(items: seq<Item>, i: nat, j: nat)
    requires Sorted(items, SortKey) && i < |SummaryOf(items).top| <= j < |items|
    ensures |SummaryOf(items).top| == 5
    ensures SummaryOf(items).top[i] == TopIssueOf(items[i])
    ensures SeverityRank(items[i].finding.severity) <= SeverityRank(items[j].finding.severity)
  {
    assert KeyLe(SortKey(items[i]), SortKey(items[j]));
  }

  // The top issues tell severity, category and issue of the first five findings,
  // or of all if there are fewer.
  lemma TopIssuesAreTheFirst(items: seq<Item>, i: nat)
    ensures |SummaryOf(items).top| == if |items| < 5 then |items| else 5
    ensures i < |SummaryOf(items).top| ==>
      SummaryOf(items).top[i] == TopIssue(items[i].finding.severity, items[i].category, items[i].finding.issue)
  {
    hide SeverityCount, CategoryCount, Overall;
    var front := Front(items, 5);
    assert i < |front| ==> Map(front, TopIssueOf)[i] == TopIssueOf(front[i]);
  }

  // ---- The order of a report ----

  predicate MoreSevere(s: Severity, t: Severity) {
    || (s == Critical && t != Critical)
    || (s == High && (t == Medium || t == Low || t == Info))
    || (s == Medium && (t == Low || t == Info))
    || (s == Low && t == Info)
  }

  predicate ReportedBefore(c: string, d: string) {
    || (c == "channels" && (d == "dlq" || d == "cluster"))
    || (c == "dlq" && d == "cluster")
  }

  lemma RanksAre(s: Severity, t: Severity, c: string, d: string)
    ensures MoreSevere(s, t) <==> SeverityRank(s) < SeverityRank(t)
    ensures c in CATEGORIES && d in CATEGORIES ==> (ReportedBefore(c, d) <==> CategoryRank(c) < CategoryRank(d))
    ensures ReportedBefore(c, d) ==> c in CATEGORIES && d in CATEGORIES
  {
  }

  // In a report no finding stands behind a less severe one, nor, if they are
  // equally severe, channels behind others or the dead-letter queue behind
  // clusters, nor, within a category, an issue behind a later one of the alphabet.
  lemma ReportIsOrdered(channels: Outcome, dlq: Outcome, cluster: Outcome, i: nat, j: nat)
    requires i < j < |ReportOf(channels, dlq, cluster).findings|
    ensures var findings := ReportOf(channels, dlq, cluster).findings;
            var a, b := findings[i], findings[j];
            && !MoreSevere(b.finding.severity, a.finding.severity)
            && (a.finding.severity == b.finding.severity ==> !ReportedBefore(b.category, a.category))
            && (a.finding.severity == b.finding.severity && a.category == b.category ==>
                  a.finding.issue == b.finding.issue || exists k: nat :: DiffersAt(a.finding.issue, b.finding.issue, k))
  {
    var all := AllItems(channels, dlq, cluster);
    var findings := ReportOf(channels, dlq, cluster).findings;
    SortSorts(all, SortKey);
    hide StableSort, SummaryOf, AllItems;
    var a, b := findings[i], findings[j];
    assert KeyLe(SortKey(a), SortKey(b));
    RanksAre(b.finding.severity, a.finding.severity, b.category, a.category);
    hide MoreSevere, ReportedBefore, SeverityRank, CategoryRank;
    StringLeIff(a.finding.issue, b.finding.issue);
    hide StringLe, DiffersAt;
  }

  // ---- The order of arrival does not matter ----

  // Whatever order the findings arrive in, the report lists the same sequence
  // of severity, category and issue.
  lemma ArrivalOrderKeepsTheKeys(s: seq<Item>, t: seq<Item>)
    requires multiset(s) == multiset(t)
    ensures Map(StableSort(s, SortKey), SortKey) == Map(StableSort(t, SortKey), SortKey)
  {
    PermutationSortsToSameKeys(s, t, SortKey);
  }

  lemma LogIssueNamesCode(a: string, b: string)
    ensures Channels.LogFinding(a).issue == Channels.LogFinding(b).issue ==> a == b
  {
    var x, y := Channels.LogFinding(a).issue, Channels.LogFinding(b).issue;
    var n := |"Error log contains "|;
    assert x[n..] == a && y[n..] == b;
  }

  function LogItems(order: seq<string>): seq<Item> {
    Map(Map(order, Channels.LogFinding), InCategory("channels"))
  }

  lemma LogItemsAreDistinct(order: seq<string>)
    requires Distinct(order)
    ensures DistinctKeys(LogItems(order), SortKey)
  {
    forall i, j | 0 <= i < j < |order| ensures SortKey(LogItems(order)[i]) != SortKey(LogItems(order)[j]) {
      LogIssueNamesCode(order[i], order[j]);
      hide Channels.LogFinding;
    }
  }

  // The AMQ codes of the log come out of an unordered set. The whole report is
  // the same for every order in which they are visited.
  lemma CodeOrderDoesNotMatter(rows: seq<Finding>, codes: set<string>, documented: string -> bool,
                               order: seq<string>, order': seq<string>, dlq: Outcome, cluster: Outcome)
    requires Channels.Enumerates(order, codes, documented) && Channels.Enumerates(order', codes, documented)
    ensures ReportOf(Ok(rows + Map(order, Channels.LogFinding)), dlq, cluster)
         == ReportOf(Ok(rows + Map(order', Channels.LogFinding)), dlq, cluster)
  {
    var before := Map(rows, InCategory("channels"));
    var after := Contribution("dlq", dlq) + Contribution("cluster", cluster);
    SplitItems(rows, order, dlq, cluster);
    SplitItems(rows, order', dlq, cluster);
    DistinctPermutes(order, order');
    MapPermutes(order, order', Channels.LogFinding);
    MapPermutes(Map(order, Channels.LogFinding), Map(order', Channels.LogFinding), InCategory("channels"));
    LogItemsAreDistinct(order);
    DistinctKeysArriveInAnyOrder(before, LogItems(order), LogItems(order'), after, SortKey);
    hide StableSort, SummaryOf, AllItems, Map;
  }

  lemma SplitItems(rows: seq<Finding>, order: seq<string>, dlq: Outcome, cluster: Outcome)
    ensures AllItems(Ok(rows + Map(order, Channels.LogFinding)), dlq, cluster)
         == Map(rows, InCategory("channels")) + LogItems(order)
            + (Contribution("dlq", dlq) + Contribution("cluster", cluster))
  {
    var logged := Map(order, Channels.LogFinding);
    assert Map(rows + logged, InCategory("channels"))
        == Map(rows, InCategory("channels")) + Map(logged, InCategory("channels"));
  }
}
