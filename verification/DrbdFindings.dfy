// What the DRBD checks report for the parsed entries, and so for the status text.
module DrbdFindings {
  import opened Wrappers
  import opened Text
  import opened Seqs
  import opened Findings
  import opened Drbd
  import DrbdPrinter

  const BAD_CONNECTIONS := {"WFConnection", "StandAlone", "Disconnecting", "Unconnected", "Timeout"}
  const BAD_DISKS := {"Inconsistent", "Outdated", "DUnknown", "Failed", "Diskless"}

  // ---- What one entry is reported for ----

  function SplitBrainFinding(e: Entry): Finding {
    Finding("DRBD split-brain detected on resource " + e.resource, Critical, None, None,
            [DrbdStatus(e.resource), RdqmStatus, CrmMon], [DrbdStatus(e.resource)])
  }

  function ConnectionFinding(e: Entry): Finding {
    var conn := Strip(e.connectionState);
    Finding("DRBD resource " + e.resource + " connection_state=" + conn,
            if conn in BAD_CONNECTIONS then High else Medium, None, None,
            [DrbdStatus(e.resource), RdqmStatus], [DrbdStatus(e.resource)])
  }

  // One side of a resource with the state its disk is in.
  datatype Side = Side(who: string, state: string)

  function Sides(e: Entry): seq<Side> {
    [Side("local", e.diskState), Side("peer", e.peerDiskState)]
  }

  function DiskFinding(e: Entry, side: Side): Finding {
    Finding("DRBD " + side.who + " disk on " + e.resource + " is " + Strip(side.state), High, None, None,
            [DrbdStatus(e.resource), RdqmStatus], [DrbdStatus(e.resource)])
  }

  function SplitBrainOf(e: Entry): seq<Finding> {
    if e.splitBrain then [SplitBrainFinding(e)] else []
  }

  function ConnectionOf(e: Entry): seq<Finding> {
    if e.splitBrain || Strip(e.connectionState) in {"", "Connected"} then [] else [ConnectionFinding(e)]
  }

  function SideOf(e: Entry): Side -> seq<Finding> {
    (side: Side) => if Strip(side.state) in BAD_DISKS then [DiskFinding(e, side)] else []
  }

  function DisksOf(e: Entry): seq<Finding> {
    if e.splitBrain then [] else FlatMap(Sides(e), SideOf(e))
  }

  // ---- The three checks ----

  method CheckSplitBrain(entries: seq<Entry>) returns (findings: seq<Finding>)
    ensures findings == FlatMap(entries, SplitBrainOf)
  {
    findings := [];
    for i := 0 to |entries|
      invariant findings == FlatMap(entries[..i], SplitBrainOf)
    {
      FlatMapStep(entries, i, SplitBrainOf);
      if !entries[i].splitBrain {
        continue;
      }
      findings := findings + [SplitBrainFinding(entries[i])];
    }
    assert entries[..|entries|] == entries;
  }

  method CheckConnection(entries: seq<Entry>) returns (findings: seq<Finding>)
    ensures findings == FlatMap(entries, ConnectionOf)
  {
    findings := [];
    for i := 0 to |entries|
      invariant findings == FlatMap(entries[..i], ConnectionOf)
    {
      FlatMapStep(entries, i, ConnectionOf);
      if entries[i].splitBrain {
        continue;
      }
      var conn := Strip(entries[i].connectionState);
      if conn == [] || conn == "Connected" {
        continue;
      }
      findings := findings + [ConnectionFinding(entries[i])];
    }
    assert entries[..|entries|] == entries;
  }

  // The inner loop, over the two sides of one entry.
  method CheckSides(e: Entry) returns (findings: seq<Finding>)
    ensures findings == FlatMap(Sides(e), SideOf(e))
  {
    findings := [];
    var sides := Sides(e);
    hide Sides;
    for j := 0 to |sides|
      invariant findings == FlatMap(sides[..j], SideOf(e))
    {
      FlatMapStep(sides, j, SideOf(e));
      var state := Strip(sides[j].state);
      if state == [] || state == "UpToDate" {
        continue;
      }
      if state !in BAD_DISKS {
        continue;
      }
      findings := findings + [DiskFinding(e, sides[j])];
    }
    assert sides[..|sides|] == sides;
  }

  method CheckDiskState(entries: seq<Entry>) returns (findings: seq<Finding>)
    ensures findings == FlatMap(entries, DisksOf)
  {
    findings := [];
    for i := 0 to |entries|
      invariant findings == FlatMap(entries[..i], DisksOf)
    {
      FlatMapStep(entries, i, DisksOf);
      if entries[i].splitBrain {
        continue;
      }
      var bad := CheckSides(entries[i]);
      findings := findings + bad;
    }
    assert entries[..|entries|] == entries;
  }

  // ---- What the status text determines ----

  // The (resource, peer) pairs of a status text.
  function Peers(raw: string): seq<Entry> {
    Entries(Kinds(SplitLines(raw)), None, HasSplitBrainMarker(raw))
  }

  // The lines that head an entry, from line p on.
  function HeaderLines(ks: seq<LineKind>, p: nat): set<nat>
    requires p <= |ks|
  {
    set q: nat | p <= q < |ks| && HeadsEntry(ks, q)
  }

  lemma {:induction false} OneEntryPerHeaderLine(ks: seq<LineKind>, p: nat, marker: bool)
    requires p <= |ks|
    ensures |EntriesFromLine(ks, p, marker)| == |HeaderLines(ks, p)|
    decreases |ks| - p
  {
    if p == |ks| {
      assert HeaderLines(ks, p) == {};
    } else {
      OneEntryPerHeaderLine(ks, p + 1, marker);
      assert HeaderLines(ks, p) == HeaderLines(ks, p + 1) + if HeadsEntry(ks, p) then {p} else {};
    }
  }

  // There are as many pairs as peer headers below some resource header.
  lemma PeersAreTheHeaderLines(raw: string)
    ensures |Peers(raw)| == |HeaderLines(Kinds(SplitLines(raw)), 0)|
  {
    var ks := Kinds(SplitLines(raw));
    EntriesByLine(ks, 0, HasSplitBrainMarker(raw));
    assert ks[0..] == ks;
    OneEntryPerHeaderLine(ks, 0, HasSplitBrainMarker(raw));
  }

  predicate FromPeer(e: Entry, marker: bool) {
    && e.splitBrain == marker
    && Trimmed(e.connectionState) && e.connectionState != []
    && Trimmed(e.diskState) && Trimmed(e.peerDiskState)
  }

  predicate AllFromPeers(es: seq<Entry>, marker: bool) {
    forall e <- es :: FromPeer(e, marker)
  }

  predicate TrimmedKind(kind: LineKind) {
    match kind
    case Resource(_, _, disk) => Trimmed(disk)
    case Peer(_, conn) => conn != [] && Trimmed(conn)
    case Detail(_, disk) => Trimmed(disk)
    case Other => true
  }

  lemma ClassifyTrims(line: string)
    ensures TrimmedKind(Classify(line))
  {
    match Classify(line) {
      case Resource(name, role, disk) => var _, _, _ := DrbdPrinter.ResourceReadIsMatch(line, name, role, disk);
      case Peer(peer, conn) => var _, _, _ := DrbdPrinter.PeerReadIsMatch(line, peer, conn);
      case Detail(role, disk) => var _, _, _, _ := DrbdPrinter.DetailReadIsMatch(line, role, disk);
      case Other =>
    }
  }

  lemma {:induction false} LastDetailIsTrimmed(ks: seq<LineKind>, found: LineKind)
    requires (forall k <- ks :: TrimmedKind(k)) && TrimmedKind(found)
    ensures TrimmedKind(LastDetail(ks, found))
  {
    if ks != [] {
      LastDetailIsTrimmed(ks[1..], if ks[0].Detail? then ks[0] else found);
    }
  }

  lemma {:induction false} EntriesComeFromPeers(ks: seq<LineKind>, current: Option<LineKind>, marker: bool)
    requires forall k <- ks :: TrimmedKind(k)
    requires current.Some? ==> current.value.Resource? && TrimmedKind(current.value)
    ensures AllFromPeers(Entries(ks, current, marker), marker)
  {
    if ks != [] {
      LastDetailIsTrimmed(ks[1..], NO_DETAIL);
      EntriesComeFromPeers(ks[1..], if ks[0].Resource? then Some(ks[0]) else current, marker);
      assert ks[0] in ks;
      hide LastDetail;
    }
  }

  lemma PeersComeFromPeers(raw: string)
    ensures AllFromPeers(Peers(raw), HasSplitBrainMarker(raw))
  {
    var lines := SplitLines(raw);
    forall i | 0 <= i < |lines| ensures TrimmedKind(Kinds(lines)[i]) {
      ClassifyTrims(lines[i]);
    }
    EntriesComeFromPeers(Kinds(lines), None, HasSplitBrainMarker(raw));
  }

  predicate NotConnected(e: Entry) {
    e.connectionState != "Connected"
  }

  predicate IsBad(side: Side) {
    side.state in BAD_DISKS
  }

  function DiskFindingOn(e: Entry): Side -> Finding {
    (side: Side) => DiskFinding(e, side)
  }

  function BadDisksOf(e: Entry): seq<Finding> {
    Map(Filter(Sides(e), IsBad), DiskFindingOn(e))
  }

  // With the marker: one split-brain finding per pair, or a single one if there
  // is no pair, and nothing else.
  function MarkedReport(peers: seq<Entry>): seq<Finding> {
    Map(if peers == [] then [UNATTRIBUTED] else peers, SplitBrainFinding)
  }

  // Without it: one connection finding per pair that is not Connected, then one
  // finding per side whose disk is in a bad state.
  function UnmarkedReport(peers: seq<Entry>): seq<Finding> {
    Map(Filter(peers, NotConnected), ConnectionFinding) + FlatMap(peers, BadDisksOf)
  }

  lemma {:induction false} MarkedEntries(es: seq<Entry>)
    requires forall e <- es :: e.splitBrain
    ensures FlatMap(es, SplitBrainOf) == Map(es, SplitBrainFinding)
    ensures FlatMap(es, ConnectionOf) == [] && FlatMap(es, DisksOf) == []
  {
    if es != [] {
      MarkedEntries(es[1..]);
    }
  }

  lemma DisksOfPeer(e: Entry)
    requires FromPeer(e, false)
    ensures DisksOf(e) == BadDisksOf(e)
  {
    StripTrims(e.diskState);
    StripTrims(e.peerDiskState);
    hide Trimmed, Strip;
    FlatMapSelects(Sides(e), SideOf(e), IsBad, DiskFindingOn(e));
  }

  lemma {:induction false} UnmarkedEntries(es: seq<Entry>)
    requires AllFromPeers(es, false)
    ensures FlatMap(es, SplitBrainOf) == []
    ensures FlatMap(es, ConnectionOf) == Map(Filter(es, NotConnected), ConnectionFinding)
    ensures FlatMap(es, DisksOf) == FlatMap(es, BadDisksOf)
  {
    if es != [] {
      var e, rest := es[0], es[1..];
      assert e in es && es == [e] + rest;
      DisksOfPeer(e);
      ConnectionOfPeer(e);
      UnmarkedEntries(rest);
      FilterCons(e, rest, NotConnected);
      MapConcat(if NotConnected(e) then [e] else [], Filter(rest, NotConnected), ConnectionFinding);
      assert Map([e], ConnectionFinding) == [ConnectionFinding(e)] && Map([], ConnectionFinding) == [];
      hide Trimmed, Strip, DisksOf, BadDisksOf, ConnectionFinding, ConnectionOf, Map, Filter;
    }
  }

  lemma ConnectionOfPeer(e: Entry)
    requires FromPeer(e, false)
    ensures ConnectionOf(e) == if NotConnected(e) then [ConnectionFinding(e)] else []
  {
    StripTrims(e.connectionState);
    hide Trimmed, Strip, ConnectionFinding;
  }

  function Report(raw: string): seq<Finding> {
    if HasSplitBrainMarker(raw) then MarkedReport(Peers(raw)) else UnmarkedReport(Peers(raw))
  }

  // The DRBD findings of a status text, in the order the matcher reports them.
  method DiagnoseDrbd(raw: string) returns (findings: seq<Finding>)
    ensures findings == Report(raw)
  {
    var entries := ParseDrbd(raw);
    findings := CheckSplitBrain(entries);
    var connection := CheckConnection(entries);
    findings := findings + connection;
    var disks := CheckDiskState(entries);
    findings := findings + disks;
    ReportIsDetermined(raw);
  }

  lemma ReportIsDetermined(raw: string)
    ensures var es := DrbdEntries(raw);
            FlatMap(es, SplitBrainOf) + FlatMap(es, ConnectionOf) + FlatMap(es, DisksOf)
              == if HasSplitBrainMarker(raw) then MarkedReport(Peers(raw)) else UnmarkedReport(Peers(raw))
  {
    PeersComeFromPeers(raw);
    EmptyHasNoMarker(raw);
    hide HasSplitBrainMarker, Entries, Kinds, FlatMap, Map, Filter, SplitLines;
    if HasSplitBrainMarker(raw) {
      MarkedEntries(DrbdEntries(raw));
    } else {
      UnmarkedEntries(DrbdEntries(raw));
    }
  }

  lemma EmptyHasNoMarker(raw: string)
    ensures HasSplitBrainMarker(raw) ==> raw != []
  {
  }

  // The counts and severities of a report.
  lemma ReportCounts(peers: seq<Entry>)
    ensures |MarkedReport(peers)| == if peers == [] then 1 else |peers|
    ensures forall f <- MarkedReport(peers) :: f.severity == Critical
    ensures |UnmarkedReport(peers)| == |Filter(peers, NotConnected)|
                                     + |Filter(Map(peers, LocalSide), IsBad)| + |Filter(Map(peers, PeerSide), IsBad)|
    ensures forall f <- UnmarkedReport(peers) :: f.severity == High || f.severity == Medium
  {
    CountBadDisks(peers);
    AllHigh(peers);
    var odd := Filter(peers, NotConnected);
    forall i | 0 <= i < |odd| ensures Map(odd, ConnectionFinding)[i].severity in {High, Medium} {
      assert Map(odd, ConnectionFinding)[i] == ConnectionFinding(odd[i]);
    }
    var flagged := if peers == [] then [UNATTRIBUTED] else peers;
    forall i | 0 <= i < |flagged| ensures Map(flagged, SplitBrainFinding)[i].severity == Critical {
      assert Map(flagged, SplitBrainFinding)[i] == SplitBrainFinding(flagged[i]);
    }
    hide Filter, FlatMap, BadDisksOf, LocalSide, PeerSide, ConnectionFinding;
  }

  // Split brain is the one CRITICAL finding. It is reported exactly for texts
  // that match the pattern, and then nothing else is.
  lemma CriticalIffSplitBrain(raw: string)
    ensures (exists f <- Report(raw) :: f.severity == Critical)
       <==> exists before, split, gap, brain, after :: MatchesMarker(raw, before, split, gap, brain, after)
    ensures (exists f <- Report(raw) :: f.severity == Critical) ==> forall f <- Report(raw) :: f.severity == Critical
  {
    MarkerIffMatch(raw);
    ReportCounts(Peers(raw));
    hide HasSplitBrainMarker, MatchesMarker, MarkedReport, UnmarkedReport, Peers;
    if HasSplitBrainMarker(raw) {
      assert Report(raw)[0] in Report(raw);
    }
  }

  // For instance, wherever one of the usual spellings stands.
  lemma SplitBrainTextIsCritical(before: string, gap: string, after: string)
    requires gap == "" || gap == "-" || gap == " "
    ensures var report := Report(before + ("split" + (gap + ("brain" + after))));
            report != [] && forall f <- report :: f.severity == Critical
  {
    var raw := before + ("split" + (gap + ("brain" + after)));
    assert MatchesMarker(raw, before, "split", gap, "brain", after);
    MatchIsMarker(raw, before, "split", gap, "brain", after);
    ReportCounts(Peers(raw));
    hide HasSplitBrainMarker, MatchesMarker, MarkedReport, UnmarkedReport, Peers;
  }

  // What a pair without split brain is reported for.
  lemma ConnectionReportTells(e: Entry)
    requires FromPeer(e, false)
    ensures var conn, found := e.connectionState, ConnectionOf(e);
            && |found| == (if conn == "Connected" then 0 else 1)
            && (found != [] ==>
                  && found[0].severity ==
                       (if || conn == "WFConnection" || conn == "StandAlone" || conn == "Disconnecting"
                           || conn == "Unconnected" || conn == "Timeout" then High else Medium)
                  && found[0].issue == "DRBD resource " + e.resource + " connection_state=" + conn
                  && found[0].reasonCode == None && found[0].amqCode == None
                  && found[0].fixSteps == [DrbdStatus(e.resource), RdqmStatus]
                  && found[0].verifyCommands == [DrbdStatus(e.resource)])
  {
    StripTrims(e.connectionState);
    hide Strip, Trimmed;
  }

  predicate IsBadDisk(state: string) {
    || state == "Inconsistent" || state == "Outdated" || state == "DUnknown" || state == "Failed"
    || state == "Diskless"
  }

  lemma DiskReportTells(e: Entry)
    requires FromPeer(e, false)
    ensures var local := if IsBadDisk(e.diskState) then [DiskFinding(e, Side("local", e.diskState))] else [];
            var peer := if IsBadDisk(e.peerDiskState) then [DiskFinding(e, Side("peer", e.peerDiskState))] else [];
            DisksOf(e) == local + peer
  {
    StripTrims(e.diskState);
    StripTrims(e.peerDiskState);
    hide Strip, Trimmed, DiskFinding;
    var local, peer := Side("local", e.diskState), Side("peer", e.peerDiskState);
    assert [local, peer][1..] == [peer] && [peer][1..] == [];
    assert FlatMap([peer], SideOf(e)) == SideOf(e)(peer) + [];
    assert FlatMap([local, peer], SideOf(e)) == SideOf(e)(local) + FlatMap([peer], SideOf(e));
  }

  lemma DiskFindingTells(e: Entry, who: string, state: string)
    requires Trimmed(state)
    ensures var f := DiskFinding(e, Side(who, state));
            && f.severity == High && f.reasonCode == None && f.amqCode == None
            && f.issue == "DRBD " + who + " disk on " + e.resource + " is " + state
            && f.fixSteps == [DrbdStatus(e.resource), RdqmStatus]
            && f.verifyCommands == [DrbdStatus(e.resource)]
  {
    StripTrims(state);
    hide Strip, Trimmed;
  }

  lemma SplitBrainFindingTells(e: Entry)
    ensures var f := SplitBrainFinding(e);
            && f.severity == Critical && f.reasonCode == None && f.amqCode == None
            && f.issue == "DRBD split-brain detected on resource " + e.resource
            && f.fixSteps == [DrbdStatus(e.resource), RdqmStatus, CrmMon]
            && f.verifyCommands == [DrbdStatus(e.resource)]
    ensures MarkedReport([]) == [SplitBrainFinding(UNATTRIBUTED)]
    ensures UNATTRIBUTED == Entry("<unknown>", "", "", None, "", "", "", true)
  {
  }

  function LocalSide(e: Entry): Side {
    Sides(e)[0]
  }

  function PeerSide(e: Entry): Side {
    Sides(e)[1]
  }

  lemma {:induction false} CountBadDisks(es: seq<Entry>)
    ensures |FlatMap(es, BadDisksOf)|
         == |Filter(Map(es, LocalSide), IsBad)| + |Filter(Map(es, PeerSide), IsBad)|
  {
    if es != [] {
      var e, rest := es[0], es[1..];
      CountBadDisks(rest);
      assert Map(es, LocalSide) == [LocalSide(e)] + Map(rest, LocalSide);
      assert Map(es, PeerSide) == [PeerSide(e)] + Map(rest, PeerSide);
      assert Sides(e) == [LocalSide(e)] + ([PeerSide(e)] + []);
      FilterCons(LocalSide(e), Map(rest, LocalSide), IsBad);
      FilterCons(PeerSide(e), Map(rest, PeerSide), IsBad);
      FilterCons(LocalSide(e), [PeerSide(e)] + [], IsBad);
      FilterCons(PeerSide(e), [], IsBad);
      hide Sides, LocalSide, PeerSide, Filter;
    }
  }

  lemma {:induction false} AllHigh(es: seq<Entry>)
    ensures forall f <- FlatMap(es, BadDisksOf) :: f.severity == High
  {
    if es != [] {
      AllHigh(es[1..]);
    }
  }
}
