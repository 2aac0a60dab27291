// Clusters without a full repository.
module Cluster {
  import opened Wrappers
  import opened Text
  import opened Seqs
  import opened Findings
  import opened MqscParser

  // ---- Searching ----

  predicate OccursAt(s: string, pattern: string, i: nat) {
    i + |pattern| <= |s| && s[i..i + |pattern|] == pattern
  }

  // s.find(pattern, from)
  function Find(s: string, pattern: string, from: nat): (r: int)
    requires from <= |s| && pattern != []
    ensures r == -1 || from <= r < |s|
    ensures r != -1 ==> OccursAt(s, pattern, r)
    ensures forall j: nat | from <= j < (if r == -1 then |s| else r) :: !OccursAt(s, pattern, j)
    decreases |s| - from
  {
    if from == |s| then -1
    else if OccursAt(s, pattern, from) then from
    else Find(s, pattern, from + 1)
  }

  const REPOS := "REPOS("

  predicate ReposAt(text: string, j: nat) {
    OccursAt(text, REPOS, j)
  }

  // The first close parenthesis behind the occurrence at j.
  predicate ClosesAt(text: string, j: nat, end: nat) {
    && j + |REPOS| <= end < |text| && text[end] == ')'
    && forall k | j <= k < end :: text[k] != ')'
  }

  // An occurrence that does not lie inside the parentheses of an earlier one.
  predicate Outermost(text: string, j: nat) {
    && ReposAt(text, j)
    && forall i: nat | i < j && ReposAt(text, i) :: exists k | i < k < j :: text[k] == ')'
  }

  // The occurrence at j gives the name between its parentheses.
  ghost predicate NamedAt(text: string, j: nat, name: string) {
    exists end: nat | ClosesAt(text, j, end) :: name == Strip(text[j + |REPOS|..end]) && name != []
  }

  // The name between the parentheses of an outermost occurrence before limit.
  ghost predicate NamedBefore(text: string, limit: nat, name: string) {
    exists j: nat | j < limit && Outermost(text, j) :: NamedAt(text, j, name)
  }

  ghost predicate NamesFullRepository(reposText: string, name: string) {
    NamedBefore(Upper(reposText), |reposText|, name)
  }

  lemma OccurrenceHasNoParenthesis(text: string, j: nat)
    requires ReposAt(text, j)
    ensures text[j] == 'R' && forall k | j <= k < j + |REPOS| :: text[k] != ')'
  {
    forall k | j <= k < j + |REPOS| ensures text[k] != ')' {
      assert text[k] == text[j..j + |REPOS|][k - j] == REPOS[k - j];
    }
  }

  lemma NextIsOutermost(text: string, j: nat, end: nat, next: int)
    requires Outermost(text, j) && ClosesAt(text, j, end)
    requires next == Find(text, REPOS, end)
    ensures next != -1 ==> Outermost(text, next)
    ensures forall i: nat | j < i < (if next == -1 then |text| else next) :: !Outermost(text, i)
  {
    if next != -1 {
      OccurrenceHasNoParenthesis(text, next);
      forall i: nat | i < next && ReposAt(text, i) ensures exists k | i < k < next :: text[k] == ')' {
        assert i < end && text[end] == ')';
      }
    }
  }

  // The set holds the names found before limit.
  ghost predicate Collected(clusters: set<string>, text: string, limit: int) {
    0 <= limit && forall name :: name in clusters <==> NamedBefore(text, limit, name)
  }

  function Limit(text: string, idx: int): int {
    if idx == -1 then |text| else idx
  }

  function WithName(clusters: set<string>, name: string): set<string> {
    if name == [] then clusters else clusters + {name}
  }

  lemma OneName(text: string, j: nat, end: nat, name: string)
    requires ClosesAt(text, j, end)
    ensures NamedAt(text, j, name) <==> name == Strip(text[j + |REPOS|..end]) && name != []
  {
    hide Strip;
    forall e: nat | ClosesAt(text, j, e) ensures e == end {
    }
  }

  lemma NamedUpToNext(text: string, j: nat, end: nat, next: int, name: string)
    requires Outermost(text, j) && ClosesAt(text, j, end) && next == Find(text, REPOS, end)
    ensures NamedBefore(text, Limit(text, next), name) <==> NamedBefore(text, j, name) || NamedAt(text, j, name)
  {
    NextIsOutermost(text, j, end, next);
    assert j < end && j < Limit(text, next);
    hide Strip, Outermost, ClosesAt, OccursAt;
  }

  // The loop step: the occurrence at j names one more cluster, or none.
  lemma OneMoreName(clusters: set<string>, text: string, j: nat, end: nat, next: int)
    requires Outermost(text, j) && ClosesAt(text, j, end) && next == Find(text, REPOS, end)
    requires Collected(clusters, text, j)
    ensures Collected(WithName(clusters, Strip(text[j + |REPOS|..end])), text, Limit(text, next))
  {
    var limit: nat := Limit(text, next);
    forall name ensures NamedBefore(text, limit, name)
                   <==> name in clusters || (name == Strip(text[j + |REPOS|..end]) && name != []) {
      NamedUpToNext(text, j, end, next, name);
      OneName(text, j, end, name);
    }
    hide NamedBefore, Strip;
  }

  // Without a close parenthesis there are no further names.
  lemma NoMoreNames(clusters: set<string>, text: string, j: nat)
    requires j < |text| && Collected(clusters, text, j) && Find(text, ")", j) == -1
    ensures Collected(clusters, text, |text|)
  {
    forall e | j <= e < |text| ensures text[e] != ')' {
      assert !OccursAt(text, ")", e) && text[e..e + 1] == [text[e]];
    }
    hide Strip, Outermost, OccursAt;
    forall name ensures NamedBefore(text, |text|, name) <==> NamedBefore(text, j, name) {
    }
  }

  lemma FirstName(text: string, first: int)
    requires first == Find(text, REPOS, 0)
    ensures first != -1 ==> Outermost(text, first)
    ensures Collected({}, text, Limit(text, first))
  {
    hide Strip;
  }

  lemma FoundParenthesisCloses(text: string, j: nat, end: int)
    requires Outermost(text, j) && end == Find(text, ")", j) && end != -1
    ensures ClosesAt(text, j, end)
  {
    OccurrenceHasNoParenthesis(text, j);
    assert text[end..end + 1] == [text[end]];
    forall k | j <= k < end ensures text[k] != ')' {
      assert !OccursAt(text, ")", k) && text[k..k + 1] == [text[k]];
    }
  }

  // The names are exactly those of the outermost occurrences of REPOS(...) in
  // the upper-cased text.
  method SelfFullRepoClusters(reposText: string) returns (clusters: set<string>)
    ensures forall name :: name in clusters <==> NamesFullRepository(reposText, name)
  {
    clusters := {};
    if reposText == [] {
      return;
    }
    var text := Upper(reposText);
    var idx := Find(text, REPOS, 0);
    FirstName(text, idx);
    hide Outermost, NamedBefore, Collected, Strip, OccursAt;
    while idx != -1
      invariant idx == -1 || (0 <= idx < |text| && Outermost(text, idx))
      invariant Collected(clusters, text, Limit(text, idx))
      decreases if idx == -1 then 0 else |text| - idx
    {
      var end := Find(text, ")", idx);
      if end == -1 {
        NoMoreNames(clusters, text, idx);
        break;
      }
      FoundParenthesisCloses(text, idx, end);
      var clusterName := Strip(text[idx + 6..end]);
      var next := Find(text, REPOS, end);
      StripTrims(text[idx + 6..end]);
      OneMoreName(clusters, text, idx, end, next);
      NextIsOutermost(text, idx, end, next);
      if clusterName != [] && clusterName != " " {
        clusters := clusters + {clusterName};
      }
      idx := next;
    }
    CollectedAll(clusters, reposText);
  }

  lemma CollectedAll(clusters: set<string>, reposText: string)
    requires Collected(clusters, Upper(reposText), |reposText|)
    ensures forall name :: name in clusters <==> NamesFullRepository(reposText, name)
  {
  }

  // ---- Case ----

  lemma PartOfUpper(s: string, i: nat, j: nat)
    requires i <= j <= |s|
    ensures Upper(Upper(s)[i..j]) == Upper(s)[i..j]
  {
    var part := Upper(s)[i..j];
    forall k | 0 <= k < |part| ensures Upper(part)[k] == part[k] {
      assert part[k] == ToUpper(s[i + k]);
    }
  }

  // Names come from upper-cased text, so a name with a lower-case letter is
  // never among them.
  lemma NamesAreUpperCase(reposText: string, name: string)
    requires NamesFullRepository(reposText, name)
    ensures Upper(name) == name
  {
    var text := Upper(reposText);
    hide Upper, Outermost, Strip;
    var j: nat :| j < |text| && Outermost(text, j) && NamedAt(text, j, name);
    var end: nat :| ClosesAt(text, j, end) && name == Strip(text[j + |REPOS|..end]) && name != [];
    var start := j + |REPOS|;
    var a, b := StripTakesPart(text[start..end]);
    SliceOfSlice(text, start, end, a, b);
    PartOfUpper(reposText, start + a, start + b);
  }

  // A reply that reports REPOS(name) among other text.
  function Reporting(before: string, name: string, after: string): string {
    before + REPOS + name + ")" + after
  }

  // A queue manager whose reply reports REPOS(name) somewhere outside an earlier
  // REPOS(...) is seen as a full repository for that cluster exactly when the
  // name has no lower-case letter.
  lemma ReportedNameCountsIffUpperCase(before: string, name: string, after: string)
    requires name != [] && Trimmed(name) && forall k | 0 <= k < |name| :: name[k] != ')'
    requires Outermost(Upper(Reporting(before, name, after)), |before|)
    ensures NamesFullRepository(Reporting(before, name, after), name) <==> Upper(name) == name
  {
    var s := Reporting(before, name, after);
    if Upper(name) == name {
      UpperNameIsFound(before, name, after);
    } else if NamesFullRepository(s, name) {
      NamesAreUpperCase(s, name);
    }
  }

  lemma NameInReply(before: string, name: string, after: string)
    ensures var s, start, end := Reporting(before, name, after), |before| + |REPOS|, |before| + |REPOS| + |name|;
            end < |s| && s[start..end] == name && s[end] == ')'
  {
  }

  lemma UpperNameIsFound(before: string, name: string, after: string)
    requires name != [] && Trimmed(name) && Upper(name) == name && forall k | 0 <= k < |name| :: name[k] != ')'
    requires Outermost(Upper(Reporting(before, name, after)), |before|)
    ensures NamesFullRepository(Reporting(before, name, after), name)
  {
    var s, j := Reporting(before, name, after), |before|;
    NameInReply(before, name, after);
    var text, start, end := Upper(s), j + |REPOS|, j + |REPOS| + |name|;
    assert text[start..end] == name by {
      forall k | start <= k < end ensures text[k] == name[k - start] {
        assert s[k] == s[start..end][k - start];
        assert Upper(name)[k - start] == name[k - start];
      }
    }
    assert text[end] == ')';
    StripTrims(name);
    OccurrenceHasNoParenthesis(text, j);
    hide Upper, Strip, Trimmed, Outermost, Reporting;
    forall k | j <= k < end ensures text[k] != ')' {
      assert k < start || text[k] == text[start..end][k - start];
    }
    assert ClosesAt(text, j, end);
    assert NamedAt(text, j, name);
    assert NamedBefore(text, |s|, name);
  }

  // ---- The check ----

  function Field(row: Row, key: string): string {
    if key in row then row[key] else ""
  }

  function ClusterOf(row: Row): string {
    Strip(Field(row, "CLUSTER"))
  }

  predicate IsFullRepository(row: Row) {
    Upper(Field(row, "QMTYPE")) == "REPOS"
  }

  function NoRepository(cluster: string): Finding {
    Finding("Cluster " + cluster + " has no visible full repository", Critical, None, None,
            [OnCluster(Findings.Members, cluster), OnManager(Repositories)],
            [OnCluster(MemberTypes, cluster)])
  }

  // The clusters of the rows, each once, in the order they first appear.
  function FirstSeen(rows: seq<Row>): seq<string> {
    if rows == [] then []
    else
      var before, c := FirstSeen(rows[..|rows| - 1]), ClusterOf(rows[|rows| - 1]);
      if c == [] || c in before then before else before + [c]
  }

  function InCluster(cluster: string): Row -> bool {
    (row: Row) => ClusterOf(row) == cluster
  }

  function Members(rows: seq<Row>, cluster: string): seq<Row> {
    Filter(rows, InCluster(cluster))
  }

  // The cluster occurs, and neither a row nor the reply names a full repository for it.
  ghost predicate Unserved(rows: seq<Row>, reposText: string, cluster: string) {
    && cluster != []
    && (exists row <- rows :: ClusterOf(row) == cluster)
    && (forall row <- rows :: ClusterOf(row) == cluster ==> !IsFullRepository(row))
    && !NamesFullRepository(reposText, cluster)
  }

  ghost function IsUnserved(rows: seq<Row>, reposText: string): string -> bool {
    (cluster: string) => Unserved(rows, reposText, cluster)
  }

  // What the grouping holds for one cluster.
  predicate GroupAt(byCluster: map<string, seq<Row>>, rows: seq<Row>, c: string) {
    if c in byCluster then c != [] && byCluster[c] == Members(rows, c)
    else c == [] || Members(rows, c) == []
  }

  ghost predicate GroupedBy(order: seq<string>, byCluster: map<string, seq<Row>>, rows: seq<Row>) {
    && order == FirstSeen(rows)
    && (forall c :: c in order <==> c in byCluster)
    && (forall c :: GroupAt(byCluster, rows, c))
  }

  lemma MembersStep(rows: seq<Row>, i: nat, c: string)
    requires i < |rows|
    ensures Members(rows[..i + 1], c) == Members(rows[..i], c) + if ClusterOf(rows[i]) == c then [rows[i]] else []
  {
    FilterStep(rows, i, InCluster(c));
  }

  lemma FirstSeenStep(rows: seq<Row>, i: nat)
    requires i < |rows|
    ensures var before, c := FirstSeen(rows[..i]), ClusterOf(rows[i]);
            FirstSeen(rows[..i + 1]) == if c == [] || c in before then before else before + [c]
  {
    assert rows[..i + 1][..i] == rows[..i] && rows[..i + 1][i] == rows[i];
  }

  // by_cluster[cluster].append(row), with lists created on demand.
  function AddRow(byCluster: map<string, seq<Row>>, row: Row): map<string, seq<Row>> {
    var c := ClusterOf(row);
    if c == [] then byCluster
    else byCluster[c := (if c in byCluster then byCluster[c] else []) + [row]]
  }

  lemma GroupAtStep(byCluster: map<string, seq<Row>>, rows: seq<Row>, i: nat, k: string)
    requires i < |rows| && GroupAt(byCluster, rows[..i], k)
    ensures GroupAt(AddRow(byCluster, rows[i]), rows[..i + 1], k)
  {
    MembersStep(rows, i, k);
    hide ClusterOf, Members;
  }

  lemma GroupStep(order: seq<string>, byCluster: map<string, seq<Row>>, rows: seq<Row>, i: nat)
    requires i < |rows| && GroupedBy(order, byCluster, rows[..i])
    ensures var c := ClusterOf(rows[i]);
            GroupedBy(if c == [] || c in byCluster then order else order + [c],
                      AddRow(byCluster, rows[i]), rows[..i + 1])
  {
    var more, grouped := rows[..i + 1], AddRow(byCluster, rows[i]);
    FirstSeenStep(rows, i);
    forall k ensures GroupAt(grouped, more, k) {
      GroupAtStep(byCluster, rows, i, k);
    }
    hide ClusterOf, Members, FirstSeen, GroupAt;
  }

  method GroupByCluster(rows: seq<Row>) returns (order: seq<string>, byCluster: map<string, seq<Row>>)
    ensures GroupedBy(order, byCluster, rows)
  {
    order, byCluster := [], map[];
    assert GroupedBy(order, byCluster, rows[..0]);
    hide GroupedBy, ClusterOf;
    for i := 0 to |rows|
      invariant GroupedBy(order, byCluster, rows[..i])
    {
      GroupStep(order, byCluster, rows, i);
      var cluster := ClusterOf(rows[i]);
      ghost var before := byCluster;
      if cluster != [] {
        if cluster !in byCluster {
          order := order + [cluster];
          byCluster := byCluster[cluster := []];
        }
        byCluster := byCluster[cluster := byCluster[cluster] + [rows[i]]];
        assert byCluster == AddRow(before, rows[i]);
      }
    }
    assert rows[..|rows|] == rows;
  }

  lemma UnservedIff(rows: seq<Row>, reposText: string, cluster: string, members: seq<Row>)
    requires cluster != [] && members == Members(rows, cluster) && members != []
    ensures Unserved(rows, reposText, cluster) <==>
      !NamesFullRepository(reposText, cluster) && Filter(members, IsFullRepository) == []
  {
    hide ClusterOf, IsFullRepository, NamesFullRepository, Filter;
    forall row ensures row in members <==> row in rows && ClusterOf(row) == cluster {
      FilterHolds(rows, InCluster(cluster), row);
    }
    forall row ensures row in Filter(members, IsFullRepository) <==> row in members && IsFullRepository(row) {
      FilterHolds(members, IsFullRepository, row);
    }
    assert members[0] in members;
    var full := Filter(members, IsFullRepository);
    assert full != [] ==> full[0] in full;
  }

  // One finding per unserved cluster, in the order the clusters first appear.
  method CheckFullRepos(rows: seq<Row>, reposText: string) returns (findings: seq<Finding>)
    ensures findings == Map(Filter(FirstSeen(rows), IsUnserved(rows, reposText)), NoRepository)
  {
    findings := [];
    var order, byCluster := GroupByCluster(rows);
    var selfFull := SelfFullRepoClusters(reposText);
    ghost var unserved := IsUnserved(rows, reposText);
    for i := 0 to |order|
      invariant findings == Map(Filter(order[..i], unserved), NoRepository)
    {
      var cluster := order[i];
      assert cluster in order;
      var members := byCluster[cluster];
      var fullRepos := Filter(members, IsFullRepository);
      UnservedAt(rows, reposText, order, byCluster, i);
      FilterStep(order, i, unserved);
      MapStep(Filter(order[..i], unserved), cluster, NoRepository);
      hide Map, Filter, GroupedBy, NoRepository, NamesFullRepository, Unserved;
      if cluster in selfFull {
        continue;
      }
      if fullRepos == [] {
        findings := findings + [NoRepository(cluster)];
      }
    }
    assert order[..|order|] == order;
  }

  lemma UnservedAt(rows: seq<Row>, reposText: string, order: seq<string>, byCluster: map<string, seq<Row>>, i: nat)
    requires GroupedBy(order, byCluster, rows) && i < |order|
    ensures order[i] in byCluster
    ensures Unserved(rows, reposText, order[i]) <==>
      !NamesFullRepository(reposText, order[i]) && Filter(byCluster[order[i]], IsFullRepository) == []
  {
    var cluster := order[i];
    assert cluster in order && GroupAt(byCluster, rows, cluster);
    SeenHasMembers(rows, cluster);
    UnservedIff(rows, reposText, cluster, byCluster[cluster]);
  }

  lemma {:induction false} SeenHasMembers(rows: seq<Row>, cluster: string)
    ensures cluster in FirstSeen(rows) <==> cluster != [] && Members(rows, cluster) != []
  {
    if rows != [] {
      var last := |rows| - 1;
      SeenHasMembers(rows[..last], cluster);
      FilterStep(rows, last, InCluster(cluster));
      assert rows[..last + 1] == rows;
    }
  }

  // ---- Which clusters are reported ----

  lemma {:induction false} FirstSeenIsDistinct(rows: seq<Row>)
    ensures Distinct(FirstSeen(rows))
  {
    if rows != [] {
      FirstSeenIsDistinct(rows[..|rows| - 1]);
    }
  }

  lemma {:induction false} CountOf(clusters: seq<string>, c: string)
    requires Distinct(clusters)
    ensures multiset(Map(clusters, NoRepository))[NoRepository(c)] == if c in clusters then 1 else 0
  {
    if clusters != [] {
      var first, rest := clusters[0], clusters[1..];
      CountOf(rest, c);
      assert Map(clusters, NoRepository) == [NoRepository(first)] + Map(rest, NoRepository);
      FindingNamesCluster(first, c);
      assert clusters == [first] + rest;
    }
  }

  lemma FindingNamesCluster(a: string, b: string)
    ensures NoRepository(a) == NoRepository(b) ==> a == b
  {
    if NoRepository(a) == NoRepository(b) {
      assert NoRepository(a).fixSteps[0] == NoRepository(b).fixSteps[0];
    }
  }

  // Each unserved cluster is reported exactly once, and no other cluster is.
  lemma ReportedOnceIffUnserved(rows: seq<Row>, reposText: string, c: string)
    ensures var findings := Map(Filter(FirstSeen(rows), IsUnserved(rows, reposText)), NoRepository);
            multiset(findings)[NoRepository(c)] == if Unserved(rows, reposText, c) then 1 else 0
  {
    var clusters := Filter(FirstSeen(rows), IsUnserved(rows, reposText));
    FirstSeenIsDistinct(rows);
    FilterKeepsDistinct(FirstSeen(rows), IsUnserved(rows, reposText));
    CountOf(clusters, c);
    FilterHolds(FirstSeen(rows), IsUnserved(rows, reposText), c);
    if Unserved(rows, reposText, c) {
      var row :| row in rows && ClusterOf(row) == c;
      FilterHolds(rows, InCluster(c), row);
      SeenHasMembers(rows, c);
    }
  }

  // A row belongs to the cluster in its CLUSTER column and is a full repository
  // if its QMTYPE column says so, in either case of letters.
  lemma RowIsRead(row: Row)
    ensures ClusterOf(row) == if "CLUSTER" in row then Strip(row["CLUSTER"]) else ""
    ensures IsFullRepository(row) <==> "QMTYPE" in row && Upper(row["QMTYPE"]) == "REPOS"
  {
    StripTrims("");
    assert Upper("") == "";
  }

  lemma ReportTells(cluster: string)
    ensures var f := NoRepository(cluster);
            && f.severity == Critical && f.reasonCode == None && f.amqCode == None
            && f.issue == "Cluster " + cluster + " has no visible full repository"
            && f.fixSteps == [OnCluster(Findings.Members, cluster), OnManager(Repositories)]
            && f.verifyCommands == [OnCluster(MemberTypes, cluster)]
  {
  }

  lemma SearchIsForRepos(s: string, i: nat)
    ensures ReposAt(s, i) <==>
      && i + 6 <= |s| && s[i] == 'R' && s[i + 1] == 'E' && s[i + 2] == 'P' && s[i + 3] == 'O' && s[i + 4] == 'S'
      && s[i + 5] == '('
  {
    if i + 6 <= |s| {
      assert s[i..i + 6] == [s[i], s[i + 1], s[i + 2], s[i + 3], s[i + 4], s[i + 5]];
    }
  }

  // Whatever the reply says, a cluster with a lower-case letter in its name is
  // reported unless one of its rows is a full repository.
  lemma LowerCaseNeedsARow(rows: seq<Row>, reposText: string, c: string)
    requires Upper(c) != c
    ensures Unserved(rows, reposText, c) <==>
      && (exists row <- rows :: ClusterOf(row) == c)
      && forall row <- rows :: ClusterOf(row) == c ==> !IsFullRepository(row)
  {
    if NamesFullRepository(reposText, c) {
      NamesAreUpperCase(reposText, c);
    }
  }
}
