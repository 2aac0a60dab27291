// What the line patterns of drbdadm status match, a printer for that format,
// and the proof that parsing undoes it. The patterns are stated as ways to cut a
// line into pieces, so each of them holds in both directions: a line that can be
// cut up like that is read with these pieces, and a line that is read with them
// can be cut up like that. The printer lays out every line on its own.
module DrbdPrinter {
  import opened Wrappers
  import opened Text
  import opened Drbd

  // ---- Words and gaps ----

  predicate IsWord(s: string) {
    s != [] && forall i | 0 <= i < |s| :: !IsSpace(s[i])
  }

  predicate IsGap(s: string) {
    forall i | 0 <= i < |s| :: IsSpace(s[i])
  }

  // A gap may be missing only at the end of the line.
  predicate Separates(gap: string, rest: string) {
    && IsGap(gap)
    && (rest != [] ==> gap != [] && !IsSpace(rest[0]))
  }

  lemma ReadWord(w: string, gap: string, rest: string)
    requires IsWord(w) && Separates(gap, rest)
    ensures FirstWord(w + (gap + rest)) == w && Next(w + (gap + rest)) == rest
  {
    WordLengthConcat(w, gap + rest);
    StripLeftGap(gap, rest);
    assert (w + (gap + rest))[|w|..] == gap + rest;
  }

  lemma {:induction false} LeadingGap(s: string) returns (gap: string)
    ensures IsGap(gap) && s == gap + StripLeft(s)
    ensures s != [] && IsSpace(s[0]) ==> gap != []
    ensures StripLeft(s) != [] ==> !IsSpace(StripLeft(s)[0])
  {
    if s == [] || !IsSpace(s[0]) {
      gap := [];
    } else {
      var g := LeadingGap(s[1..]);
      gap := [s[0]] + g;
    }
  }

  lemma {:induction false} FirstWordHasNoSpace(s: string)
    ensures forall i | 0 <= i < |FirstWord(s)| :: !IsSpace(s[i])
  {
    if s != [] && !IsSpace(s[0]) {
      FirstWordHasNoSpace(s[1..]);
      forall i | 0 <= i < |FirstWord(s)| ensures !IsSpace(s[i]) {
        if i > 0 {
          assert s[i] == s[1..][i - 1];
        }
      }
    }
  }

  // Every string is its first word, a gap and what follows.
  lemma TakeWord(s: string) returns (gap: string)
    ensures s == FirstWord(s) + (gap + Next(s)) && Separates(gap, Next(s))
    ensures FirstWord(s) != [] ==> IsWord(FirstWord(s))
  {
    var n := WordLength(s);
    gap := LeadingGap(s[n..]);
    FirstWordHasNoSpace(s);
    assert s == s[..n] + s[n..];
  }

  // ---- What the three line patterns match ----

  predicate MatchesResource(line: string, name: string, role: string, disk: string, g1: string, g2: string, g3: string) {
    && line == name + (g1 + (("role:" + role) + (g2 + (("disk:" + disk) + (g3 + [])))))
    && IsWord(name) && IsWord(role) && IsWord(disk)
    && IsGap(g1) && g1 != [] && IsGap(g2) && g2 != [] && IsGap(g3)
  }

  predicate MatchesPeer(line: string, peer: string, conn: string, g1: string, g2: string, g3: string) {
    && line == g1 + (peer + (g2 + (("connection:" + conn) + (g3 + []))))
    && IsWord(peer) && IsWord(conn)
    && IsGap(g1) && g1 != [] && IsGap(g2) && g2 != [] && IsGap(g3)
  }

  predicate MatchesDetail(line: string, role: string, disk: string, g1: string, g2: string, tag: string, tail: string) {
    && line == g1 + (("role:" + role) + (g2 + (tag + (disk + tail))))
    && IsWord(role) && IsWord(disk)
    && IsGap(g1) && g1 != [] && IsGap(g2) && g2 != []
    && (tag == "peer-disk:" || tag == "peer disk:")
    && (tail != [] ==> IsSpace(tail[0]))
  }

  lemma TaggedWord(tag: string, word: string)
    requires IsWord(tag) && IsWord(word)
    ensures IsWord(tag + word) && Tagged(tag + word, tag) && Untag(tag + word, tag) == word
  {
  }

  lemma UntaggedWord(tag: string, word: string)
    requires IsWord(word) && Tagged(word, tag)
    ensures IsWord(Untag(word, tag)) && word == tag + Untag(word, tag)
  {
  }

  lemma ResourceMatchIsRead(line: string, name: string, role: string, disk: string, g1: string, g2: string, g3: string)
    requires MatchesResource(line, name, role, disk, g1, g2, g3)
    ensures Classify(line) == Resource(name, role, disk)
  {
    TaggedWord("role:", role);
    TaggedWord("disk:", disk);
    var third := ("disk:" + disk) + (g3 + []);
    var second := ("role:" + role) + (g2 + third);
    ReadWord(name, g1, second);
    ReadWord("role:" + role, g2, third);
    ReadWord("disk:" + disk, g3, []);
    hide FirstWord, Next;
  }

  lemma ResourceReadIsMatch(line: string, name: string, role: string, disk: string) returns (g1: string, g2: string, g3: string)
    requires Classify(line) == Resource(name, role, disk)
    ensures MatchesResource(line, name, role, disk, g1, g2, g3)
  {
    var second := Next(line);
    var third := Next(second);
    g1 := TakeWord(line);
    g2 := TakeWord(second);
    g3 := TakeWord(third);
    hide FirstWord, Next;
    UntaggedWord("role:", FirstWord(second));
    UntaggedWord("disk:", FirstWord(third));
  }

  // A line is read as a resource header exactly when it matches the pattern.
  lemma ResourceIffMatch(line: string, name: string, role: string, disk: string)
    ensures Classify(line) == Resource(name, role, disk)
       <==> exists g1, g2, g3 :: MatchesResource(line, name, role, disk, g1, g2, g3)
  {
    hide Classify, MatchesResource;
    if Classify(line) == Resource(name, role, disk) {
      var g1, g2, g3 := ResourceReadIsMatch(line, name, role, disk);
    }
    forall g1, g2, g3 | MatchesResource(line, name, role, disk, g1, g2, g3)
      ensures Classify(line) == Resource(name, role, disk)
    {
      ResourceMatchIsRead(line, name, role, disk, g1, g2, g3);
    }
  }

  lemma IndentedIsNoResource(line: string)
    requires Indented(line)
    ensures !IsResourceHeader(line)
  {
  }

  lemma PeerMatchIsRead(line: string, peer: string, conn: string, g1: string, g2: string, g3: string)
    requires MatchesPeer(line, peer, conn, g1, g2, g3)
    ensures Classify(line) == Peer(peer, conn)
  {
    TaggedWord("connection:", conn);
    var second := ("connection:" + conn) + (g3 + []);
    StripLeftGap(g1, peer + (g2 + second));
    ReadWord(peer, g2, second);
    ReadWord("connection:" + conn, g3, []);
    IndentedIsNoResource(line);
    hide FirstWord, Next, StripLeft;
  }

  lemma PeerReadIsMatch(line: string, peer: string, conn: string) returns (g1: string, g2: string, g3: string)
    requires Classify(line) == Peer(peer, conn)
    ensures MatchesPeer(line, peer, conn, g1, g2, g3)
  {
    var t := StripLeft(line);
    g1 := LeadingGap(line);
    g2 := TakeWord(t);
    g3 := TakeWord(Next(t));
    hide FirstWord, Next, StripLeft;
    UntaggedWord("connection:", FirstWord(Next(t)));
  }

  // A line is read as a peer header exactly when it matches the pattern.
  lemma PeerIffMatch(line: string, peer: string, conn: string)
    ensures Classify(line) == Peer(peer, conn)
       <==> exists g1, g2, g3 :: MatchesPeer(line, peer, conn, g1, g2, g3)
  {
    hide Classify, MatchesPeer;
    if Classify(line) == Peer(peer, conn) {
      var g1, g2, g3 := PeerReadIsMatch(line, peer, conn);
    }
    forall g1, g2, g3 | MatchesPeer(line, peer, conn, g1, g2, g3)
      ensures Classify(line) == Peer(peer, conn)
    {
      PeerMatchIsRead(line, peer, conn, g1, g2, g3);
    }
  }

  // The word behind the role is not a connection.
  lemma DiskWordIsNoConnection(s: string)
    requires |s| >= 10 && ("peer-disk:" <= s || "peer disk:" <= s)
    ensures !Tagged(FirstWord(s), "connection:")
  {
    assert s[0] == 'p';
  }

  lemma DetailMatchIsRead(line: string, role: string, disk: string, g1: string, g2: string, tag: string, tail: string)
    requires MatchesDetail(line, role, disk, g1, g2, tag, tail)
    ensures Classify(line) == Detail(role, disk)
  {
    TaggedWord("role:", role);
    var u := tag + (disk + tail);
    assert u[0] == 'p' && tag <= u;
    StripLeftGap(g1, ("role:" + role) + (g2 + u));
    ReadWord("role:" + role, g2, u);
    DiskWordIsNoConnection(u);
    WordLengthConcat(disk, tail);
    assert u[10..] == disk + tail;
    IndentedIsNoResource(line);
    assert FirstWord(u[10..]) == disk;
    hide FirstWord, Next, StripLeft;
  }

  lemma TakeDisk(u: string) returns (tag: string, tail: string)
    requires |u| >= 10 && ("peer-disk:" <= u || "peer disk:" <= u) && FirstWord(u[10..]) != []
    ensures u == tag + (FirstWord(u[10..]) + tail) && IsWord(FirstWord(u[10..]))
    ensures tag == "peer-disk:" || tag == "peer disk:"
    ensures tail != [] ==> IsSpace(tail[0])
  {
    var v := u[10..];
    var n := WordLength(v);
    FirstWordHasNoSpace(v);
    tag, tail := u[..10], v[n..];
    assert u == tag + v && v == v[..n] + tail;
  }

  lemma DetailReadIsMatch(line: string, role: string, disk: string) returns (g1: string, g2: string, tag: string, tail: string)
    requires Classify(line) == Detail(role, disk)
    ensures MatchesDetail(line, role, disk, g1, g2, tag, tail)
  {
    assert IsPeerDetail(line);
    var t := StripLeft(line);
    hide FirstWord, Next, StripLeft;
    g1 := LeadingGap(line);
    g2 := TakeWord(t);
    tag, tail := TakeDisk(Next(t));
    UntaggedWord("role:", FirstWord(t));
  }

  // A line is read as peer details exactly when it matches the pattern.
  lemma DetailIffMatch(line: string, role: string, disk: string)
    ensures Classify(line) == Detail(role, disk)
       <==> exists g1, g2, tag, tail :: MatchesDetail(line, role, disk, g1, g2, tag, tail)
  {
    hide Classify, MatchesDetail;
    if Classify(line) == Detail(role, disk) {
      var g1, g2, tag, tail := DetailReadIsMatch(line, role, disk);
    }
    forall g1, g2, tag, tail | MatchesDetail(line, role, disk, g1, g2, tag, tail)
      ensures Classify(line) == Detail(role, disk)
    {
      DetailMatchIsRead(line, role, disk, g1, g2, tag, tail);
    }
  }

  // ---- Printing ----

  // The white space of one line: before it, between its words and behind it.
  datatype Layout = Layout(indent: string, gap: string, gap2: string, end: string)

  datatype Disk = Disk(role: string, state: string, layout: Layout)
  datatype PeerBlock = PeerBlock(peer: string, conn: string, disks: seq<Disk>, layout: Layout)
  datatype ResourceBlock =
    ResourceBlock(name: string, role: string, disk: string, peers: seq<PeerBlock>, layout: Layout)

  predicate IsBlank(s: string) {
    IsGap(s) && NoLineBreak(s)
  }

  predicate LegalLayout(y: Layout) {
    && IsBlank(y.indent) && IsBlank(y.gap) && IsBlank(y.gap2) && IsBlank(y.end)
    && y.indent != [] && y.gap != [] && y.gap2 != []
  }

  predicate LegalDisks(ds: seq<Disk>) {
    ds != [] ==> LegalLayout(ds[0].layout) && IsWord(ds[0].role) && IsWord(ds[0].state) && LegalDisks(ds[1..])
  }

  predicate LegalPeers(ps: seq<PeerBlock>) {
    ps != [] ==>
      && LegalLayout(ps[0].layout)
      && IsWord(ps[0].peer) && IsWord(ps[0].conn) && LegalDisks(ps[0].disks) && LegalPeers(ps[1..])
  }

  predicate LegalStatus(blocks: seq<ResourceBlock>) {
    blocks != [] ==>
      && LegalLayout(blocks[0].layout)
      && IsWord(blocks[0].name) && IsWord(blocks[0].role) && IsWord(blocks[0].disk)
      && LegalPeers(blocks[0].peers) && LegalStatus(blocks[1..])
  }

  function PrintDisk(d: Disk): string {
    var y := d.layout;
    y.indent + (("role:" + d.role) + (y.gap + ("peer-disk:" + (d.state + y.end))))
  }

  function PrintDisks(ds: seq<Disk>): seq<string> {
    if ds == [] then [] else [PrintDisk(ds[0])] + PrintDisks(ds[1..])
  }

  function PrintPeerHeader(p: PeerBlock): string {
    var y := p.layout;
    y.indent + (p.peer + (y.gap + (("connection:" + p.conn) + (y.end + []))))
  }

  function PeerLines(p: PeerBlock): seq<string> {
    [PrintPeerHeader(p)] + PrintDisks(p.disks)
  }

  function PrintPeers(ps: seq<PeerBlock>): seq<string> {
    if ps == [] then []
    else PeerLines(ps[0]) + PrintPeers(ps[1..])
  }

  function PrintResourceHeader(b: ResourceBlock): string {
    var y := b.layout;
    b.name + (y.gap + (("role:" + b.role) + (y.gap2 + (("disk:" + b.disk) + (y.end + [])))))
  }

  function PrintStatus(blocks: seq<ResourceBlock>): seq<string> {
    if blocks == [] then []
    else ([PrintResourceHeader(blocks[0])] + PrintPeers(blocks[0].peers)) + PrintStatus(blocks[1..])
  }

  // ---- The entries a status stands for ----

  function KindOf(d: Disk): (k: LineKind)
    ensures k.Detail?
  {
    Detail(d.role, d.state)
  }

  function PeerEntry(b: ResourceBlock, p: PeerBlock, splitBrain: bool): Entry {
    var last := if p.disks == [] then Detail("", "") else KindOf(p.disks[|p.disks| - 1]);
    Entry(b.name, b.role, b.disk, Some(p.peer), p.conn, last.peerRole, last.peerDisk, splitBrain)
  }

  function PeerEntries(b: ResourceBlock, ps: seq<PeerBlock>, splitBrain: bool): seq<Entry> {
    seq(|ps|, i requires 0 <= i < |ps| => PeerEntry(b, ps[i], splitBrain))
  }

  function Flatten(blocks: seq<ResourceBlock>, splitBrain: bool): seq<Entry> {
    if blocks == [] then []
    else PeerEntries(blocks[0], blocks[0].peers, splitBrain) + Flatten(blocks[1..], splitBrain)
  }

  // ---- Reading it back ----

  lemma KindsOfConcat(a: seq<string>, b: seq<string>)
    ensures Kinds(a + b) == Kinds(a) + Kinds(b)
  {
  }

  lemma KindsOfCons(line: string, rest: seq<string>)
    ensures Kinds([line] + rest) == [Classify(line)] + Kinds(rest)
  {
  }

  predicate EndsBlock(ks: seq<LineKind>) {
    ks != [] ==> ks[0].Resource? || ks[0].Peer?
  }

  lemma PrintedDisksKinds(ds: seq<Disk>)
    requires LegalDisks(ds) && ds != []
    ensures Kinds(PrintDisks(ds)) == [Detail(ds[0].role, ds[0].state)] + Kinds(PrintDisks(ds[1..]))
  {
    var y := ds[0].layout;
    DetailMatchIsRead(PrintDisk(ds[0]), ds[0].role, ds[0].state, y.indent, y.gap, "peer-disk:", y.end);
    KindsOfCons(PrintDisk(ds[0]), PrintDisks(ds[1..]));
  }

  // A peer's detail lines are used up; the last of them is kept.
  lemma {:induction false} ReadDisks(ds: seq<Disk>, after: seq<LineKind>, found: LineKind, current: LineKind, marker: bool)
    requires EndsBlock(after) && current.Resource?
    requires LegalDisks(ds)
    ensures var ks := Kinds(PrintDisks(ds)) + after;
            && LastDetail(ks, found) ==
                 (if ds == [] then found else Detail(ds[|ds| - 1].role, ds[|ds| - 1].state))
            && Entries(ks, Some(current), marker) == Entries(after, Some(current), marker)
    decreases |ds|
  {
    if ds == [] {
      assert Kinds(PrintDisks(ds)) + after == after;
    } else {
      var kind, more := Detail(ds[0].role, ds[0].state), Kinds(PrintDisks(ds[1..]));
      PrintedDisksKinds(ds);
      assert LegalDisks(ds[1..]);
      assert |ds| > 1 ==> ds[1..][|ds| - 2] == ds[|ds| - 1];
      hide *;
      ConcatAssociates([kind], more, after);
      SkipDetail(kind, more + after, found, current, marker);
      ReadDisks(ds[1..], after, kind, current, marker);
    }
  }

  lemma SkipDetail(kind: LineKind, more: seq<LineKind>, found: LineKind, current: LineKind, marker: bool)
    requires kind.Detail? && current.Resource?
    ensures LastDetail([kind] + more, found) == LastDetail(more, kind)
    ensures Entries([kind] + more, Some(current), marker) == Entries(more, Some(current), marker)
  {
    assert ([kind] + more)[0] == kind && ([kind] + more)[1..] == more;
  }

  lemma PeerLinesKinds(p: PeerBlock)
    requires LegalLayout(p.layout) && IsWord(p.peer) && IsWord(p.conn)
    ensures Kinds(PeerLines(p)) == [Peer(p.peer, p.conn)] + Kinds(PrintDisks(p.disks))
  {
    PeerMatchIsRead(PrintPeerHeader(p), p.peer, p.conn, p.layout.indent, p.layout.gap, p.layout.end);
    KindsOfCons(PrintPeerHeader(p), PrintDisks(p.disks));
  }

  lemma ReadPeer(b: ResourceBlock, p: PeerBlock, after: seq<LineKind>, marker: bool)
    requires LegalLayout(p.layout) && IsWord(p.peer) && IsWord(p.conn) && LegalDisks(p.disks) && EndsBlock(after)
    ensures var current := Some(Resource(b.name, b.role, b.disk));
            && EndsBlock(Kinds(PeerLines(p)) + after)
            && Entries(Kinds(PeerLines(p)) + after, current, marker)
                 == [PeerEntry(b, p, marker)] + Entries(after, current, marker)
  {
    var current := Resource(b.name, b.role, b.disk);
    PeerLinesKinds(p);
    hide PeerLines, Classify, Kinds;
    var ks := Kinds(PeerLines(p)) + after;
    var rest := Kinds(PrintDisks(p.disks)) + after;
    assert ks[0] == Peer(p.peer, p.conn) && ks[1..] == rest;
    ReadDisks(p.disks, after, NO_DETAIL, current, marker);
  }

  lemma PrintedPeersKinds(ps: seq<PeerBlock>)
    requires ps != []
    ensures Kinds(PrintPeers(ps)) == Kinds(PeerLines(ps[0])) + Kinds(PrintPeers(ps[1..]))
  {
    KindsOfConcat(PeerLines(ps[0]), PrintPeers(ps[1..]));
  }

  lemma {:induction false} ReadPeers(b: ResourceBlock, ps: seq<PeerBlock>, after: seq<LineKind>, marker: bool)
    requires LegalPeers(ps)
    requires after != [] ==> after[0].Resource?
    ensures var current := Some(Resource(b.name, b.role, b.disk));
            && EndsBlock(Kinds(PrintPeers(ps)) + after)
            && Entries(Kinds(PrintPeers(ps)) + after, current, marker)
                 == PeerEntries(b, ps, marker) + Entries(after, current, marker)
    decreases |ps|
  {
    var current := Some(Resource(b.name, b.role, b.disk));
    if ps == [] {
      assert Kinds(PrintPeers(ps)) + after == after;
    } else {
      var peers := Kinds(PrintPeers(ps[1..]));
      PrintedPeersKinds(ps);
      ReadPeers(b, ps[1..], after, marker);
      hide Classify, Kinds, Entries, PeerEntries, EndsBlock, PeerEntry, PrintPeers, PeerLines;
      ReadPeer(b, ps[0], peers + after, marker);
      ConcatAssociates(Kinds(PeerLines(ps[0])), peers, after);
      PeerEntriesUnfold(b, ps, marker);
      ConcatAssociates([PeerEntry(b, ps[0], marker)], PeerEntries(b, ps[1..], marker), Entries(after, current, marker));
    }
  }

  lemma PeerEntriesUnfold(b: ResourceBlock, ps: seq<PeerBlock>, marker: bool)
    requires ps != []
    ensures PeerEntries(b, ps, marker) == [PeerEntry(b, ps[0], marker)] + PeerEntries(b, ps[1..], marker)
  {
  }

  lemma PrintedStatusKinds(blocks: seq<ResourceBlock>)
    requires LegalStatus(blocks) && blocks != []
    ensures var b := blocks[0];
            Kinds(PrintStatus(blocks))
              == [Resource(b.name, b.role, b.disk)] + (Kinds(PrintPeers(b.peers)) + Kinds(PrintStatus(blocks[1..])))
  {
    var b := blocks[0];
    var header, peers, rest := PrintResourceHeader(b), PrintPeers(b.peers), PrintStatus(blocks[1..]);
    ResourceMatchIsRead(header, b.name, b.role, b.disk, b.layout.gap, b.layout.gap2, b.layout.end);
    ConcatAssociates([header], peers, rest);
    KindsOfCons(header, peers + rest);
    KindsOfConcat(peers, rest);
    hide Classify, Kinds, PrintPeers, PrintResourceHeader;
  }

  lemma {:induction false} ReadStatus(blocks: seq<ResourceBlock>, before: Option<LineKind>, marker: bool)
    requires LegalStatus(blocks)
    requires before.Some? ==> before.value.Resource?
    ensures var ks := Kinds(PrintStatus(blocks));
            && (ks != [] ==> ks[0].Resource?)
            && Entries(ks, before, marker) == Flatten(blocks, marker)
    decreases |blocks|
  {
    if blocks != [] {
      var b := blocks[0];
      var current := Resource(b.name, b.role, b.disk);
      var rest := Kinds(PrintStatus(blocks[1..]));
      PrintedStatusKinds(blocks);
      ReadStatus(blocks[1..], Some(current), marker);
      hide Classify, Kinds, PeerEntries, PrintStatus, PrintPeers;
      ReadPeers(b, b.peers, rest, marker);
      assert ([current] + (Kinds(PrintPeers(b.peers)) + rest))[1..] == Kinds(PrintPeers(b.peers)) + rest;
    }
  }

  // ---- Lines stay lines ----

  lemma WordHasNoBreak(w: string)
    requires IsWord(w)
    ensures NoLineBreak(w)
  {
  }

  lemma {:induction false} DisksHaveNoBreak(ds: seq<Disk>)
    requires LegalDisks(ds)
    ensures forall line <- PrintDisks(ds) :: NoLineBreak(line)
    decreases |ds|
  {
    if ds != [] {
      WordHasNoBreak(ds[0].role);
      WordHasNoBreak(ds[0].state);
      assert NoLineBreak(PrintDisk(ds[0]));
      DisksHaveNoBreak(ds[1..]);
    }
  }

  lemma {:induction false} PeersHaveNoBreak(ps: seq<PeerBlock>)
    requires LegalPeers(ps)
    ensures forall line <- PrintPeers(ps) :: NoLineBreak(line)
    decreases |ps|
  {
    if ps != [] {
      WordHasNoBreak(ps[0].peer);
      WordHasNoBreak(ps[0].conn);
      DisksHaveNoBreak(ps[0].disks);
      PeersHaveNoBreak(ps[1..]);
    }
  }

  lemma {:induction false} StatusHasNoBreak(blocks: seq<ResourceBlock>)
    requires LegalStatus(blocks)
    ensures forall line <- PrintStatus(blocks) :: NoLineBreak(line)
    decreases |blocks|
  {
    if blocks != [] {
      WordHasNoBreak(blocks[0].name);
      WordHasNoBreak(blocks[0].role);
      WordHasNoBreak(blocks[0].disk);
      PeersHaveNoBreak(blocks[0].peers);
      StatusHasNoBreak(blocks[1..]);
    }
  }

  // Parsing undoes printing: the text printed for resource blocks gives back
  // their flattened peers, in order, each with its last disk line. With no peer
  // at all the placeholder appears exactly when the text has the marker.
  lemma ParseUndoesPrint(blocks: seq<ResourceBlock>)
    requires LegalStatus(blocks)
    ensures var raw := Unlines(PrintStatus(blocks));
            var peers := Flatten(blocks, HasSplitBrainMarker(raw));
            DrbdEntries(raw) == if peers == [] && HasSplitBrainMarker(raw) then [UNATTRIBUTED] else peers
  {
    var lines := PrintStatus(blocks);
    var raw := Unlines(lines);
    StatusHasNoBreak(blocks);
    SplitUnlines(lines);
    ReadStatus(blocks, None, HasSplitBrainMarker(raw));
    hide Unlines, PrintStatus, Entries, Kinds, SplitLines;
  }
}
