// drbdadm status text to one entry per (resource, peer) pair.
module Drbd {
  import opened Wrappers
  import opened Text

  // ---- Lines ----

  datatype LineKind =
    | Resource(name: string, role: string, disk: string)
    | Peer(peer: string, conn: string)
    | Detail(peerRole: string, peerDisk: string)
    | Other

  function FirstWord(s: string): string {
    s[..WordLength(s)]
  }

  // What follows the first word and the white space behind it.
  function Next(s: string): string {
    StripLeft(s[WordLength(s)..])
  }

  // The word is the tag followed by at least one more character.
  predicate Tagged(word: string, tag: string) {
    tag < word
  }

  function Untag(word: string, tag: string): string
    requires Tagged(word, tag)
  {
    word[|tag|..]
  }

  predicate IsResourceHeader(line: string) {
    && FirstWord(line) != []
    && Tagged(FirstWord(Next(line)), "role:")
    && Tagged(FirstWord(Next(Next(line))), "disk:")
    && Next(Next(Next(line))) == []
  }

  predicate Indented(line: string) {
    line != [] && IsSpace(line[0])
  }

  predicate IsPeerHeader(line: string) {
    var t := StripLeft(line);
    && Indented(line)
    && FirstWord(t) != []
    && Tagged(FirstWord(Next(t)), "connection:")
    && Next(Next(t)) == []
  }

  predicate IsPeerDetail(line: string) {
    var t := StripLeft(line);
    var u := Next(t);
    && Indented(line)
    && Tagged(FirstWord(t), "role:")
    && ("peer-disk:" <= u || "peer disk:" <= u)
    && FirstWord(u[10..]) != []
  }

  function Classify(line: string): LineKind {
    if IsResourceHeader(line) then
      Resource(FirstWord(line),
               Untag(FirstWord(Next(line)), "role:"),
               Untag(FirstWord(Next(Next(line))), "disk:"))
    else if IsPeerHeader(line) then
      var t := StripLeft(line);
      Peer(FirstWord(t), Untag(FirstWord(Next(t)), "connection:"))
    else if IsPeerDetail(line) then
      var t := StripLeft(line);
      Detail(Untag(FirstWord(t), "role:"), FirstWord(Next(t)[10..]))
    else Other
  }

  // Case-insensitive search for "split", at most one character other than a
  // line feed, and "brain". The long s and the dotted and dotless i count as
  // letters s and i.
  function Fold(c: char): char {
    if c == '\U{17F}' then 's'
    else if c == '\U{130}' || c == '\U{131}' then 'i'
    else if IsUpper(c) then c - 'A' + 'a'
    else c
  }

  predicate FoldsTo(s: string, i: nat, word: string) {
    i + |word| <= |s| && forall k | 0 <= k < |word| :: Fold(s[i + k]) == word[k]
  }

  predicate HasSplitBrainMarker(raw: string) {
    exists i: nat | i < |raw| ::
      && FoldsTo(raw, i, "split")
      && (FoldsTo(raw, i + 5, "brain")
          || (i + 5 < |raw| && raw[i + 5] != '\n' && FoldsTo(raw, i + 6, "brain")))
  }

  // The forms in which the words are found.
  predicate SpellsSplit(w: string) {
    && |w| == 5
    && w[0] in {'s', 'S', '\U{17F}'} && w[1] in {'p', 'P'} && w[2] in {'l', 'L'}
    && w[3] in {'i', 'I', '\U{130}', '\U{131}'} && w[4] in {'t', 'T'}
  }

  predicate SpellsBrain(w: string) {
    && |w| == 5
    && w[0] in {'b', 'B'} && w[1] in {'r', 'R'} && w[2] in {'a', 'A'}
    && w[3] in {'i', 'I', '\U{130}', '\U{131}'} && w[4] in {'n', 'N'}
  }

  // The text is made up as the pattern says.
  predicate MatchesMarker(raw: string, before: string, split: string, gap: string, brain: string, after: string) {
    && raw == before + (split + (gap + (brain + after)))
    && SpellsSplit(split) && SpellsBrain(brain)
    && |gap| <= 1 && (gap != [] ==> gap[0] != '\n')
  }

  lemma FoldIs(c: char, d: char)
    requires 'a' <= d <= 'z'
    ensures Fold(c) == d <==>
      c == d || c as int == d as int - 32 || (d == 's' && c == '\U{17F}') || (d == 'i' && c in {'\U{130}', '\U{131}'})
  {
  }

  lemma SplitIsSpelled(s: string, i: nat)
    ensures FoldsTo(s, i, "split") <==> i + 5 <= |s| && SpellsSplit(s[i..i + 5])
  {
    if i + 5 <= |s| {
      FoldIs(s[i], 's');
      FoldIs(s[i + 1], 'p');
      FoldIs(s[i + 2], 'l');
      FoldIs(s[i + 3], 'i');
      FoldIs(s[i + 4], 't');
      hide Fold;
      assert FoldsTo(s, i, "split") <==>
        && Fold(s[i + 0]) == 's' && Fold(s[i + 1]) == 'p' && Fold(s[i + 2]) == 'l'
        && Fold(s[i + 3]) == 'i' && Fold(s[i + 4]) == 't' by {
        var word := "split";
        assert word[0] == 's' && word[1] == 'p' && word[2] == 'l' && word[3] == 'i' && word[4] == 't';
      }
    }
  }

  lemma BrainIsSpelled(s: string, i: nat)
    ensures FoldsTo(s, i, "brain") <==> i + 5 <= |s| && SpellsBrain(s[i..i + 5])
  {
    if i + 5 <= |s| {
      FoldIs(s[i], 'b');
      FoldIs(s[i + 1], 'r');
      FoldIs(s[i + 2], 'a');
      FoldIs(s[i + 3], 'i');
      FoldIs(s[i + 4], 'n');
      hide Fold;
      assert FoldsTo(s, i, "brain") <==>
        && Fold(s[i + 0]) == 'b' && Fold(s[i + 1]) == 'r' && Fold(s[i + 2]) == 'a'
        && Fold(s[i + 3]) == 'i' && Fold(s[i + 4]) == 'n' by {
        var word := "brain";
        assert word[0] == 'b' && word[1] == 'r' && word[2] == 'a' && word[3] == 'i' && word[4] == 'n';
      }
    }
  }

  lemma FivePieces(s: string, i: nat, j: nat, k: nat, l: nat)
    requires i <= j <= k <= l <= |s|
    ensures s == s[..i] + (s[i..j] + (s[j..k] + (s[k..l] + s[l..])))
  {
    assert s[k..] == s[k..l] + s[l..] && s[j..] == s[j..k] + s[k..] && s[i..] == s[i..j] + s[j..];
  }

  lemma FoundIsMatch(raw: string, i: nat, j: nat)
    requires FoldsTo(raw, i, "split") && FoldsTo(raw, j, "brain")
    requires j == i + 5 || (j == i + 6 && raw[i + 5] != '\n')
    ensures MatchesMarker(raw, raw[..i], raw[i..i + 5], raw[i + 5..j], raw[j..j + 5], raw[j + 5..])
  {
    SplitIsSpelled(raw, i);
    BrainIsSpelled(raw, j);
    hide FoldsTo, SpellsSplit, SpellsBrain;
    FivePieces(raw, i, i + 5, j, j + 5);
  }

  lemma MarkerIsMatch(raw: string) returns (before: string, split: string, gap: string, brain: string, after: string)
    requires HasSplitBrainMarker(raw)
    ensures MatchesMarker(raw, before, split, gap, brain, after)
  {
    var i: nat :| i < |raw| && FoldsTo(raw, i, "split")
      && (FoldsTo(raw, i + 5, "brain") || (i + 5 < |raw| && raw[i + 5] != '\n' && FoldsTo(raw, i + 6, "brain")));
    var j := if FoldsTo(raw, i + 5, "brain") then i + 5 else i + 6;
    FoundIsMatch(raw, i, j);
    assert i + 5 <= j && j + 5 <= |raw|;
    hide FoldsTo, MatchesMarker;
    before, split, gap, brain, after := raw[..i], raw[i..i + 5], raw[i + 5..j], raw[j..j + 5], raw[j + 5..];
  }

  lemma MatchIsMarker(raw: string, before: string, split: string, gap: string, brain: string, after: string)
    requires MatchesMarker(raw, before, split, gap, brain, after)
    ensures HasSplitBrainMarker(raw)
  {
    var i, j := |before|, |before| + 5 + |gap|;
    SplitIsSpelled(raw, i);
    BrainIsSpelled(raw, j);
    hide SpellsSplit, SpellsBrain, FoldsTo;
    assert raw[i..i + 5] == split && raw[j..j + 5] == brain;
    assert gap != [] ==> raw[i + 5] == gap[0];
  }

  // A text has the marker exactly when it matches the pattern: split and brain
  // in any case, with at most one character other than a line feed between them.
  lemma MarkerIffMatch(raw: string)
    ensures HasSplitBrainMarker(raw)
       <==> exists before, split, gap, brain, after :: MatchesMarker(raw, before, split, gap, brain, after)
  {
    hide HasSplitBrainMarker, MatchesMarker;
    if HasSplitBrainMarker(raw) {
      var before, split, gap, brain, after := MarkerIsMatch(raw);
    }
    forall before, split, gap, brain, after | MatchesMarker(raw, before, split, gap, brain, after)
      ensures HasSplitBrainMarker(raw)
    {
      MatchIsMarker(raw, before, split, gap, brain, after);
    }
  }

  // ---- Entries ----

  // The placeholder for unattributed split brain has no peer; the others do.
  datatype Entry = Entry(
    resource: string,
    role: string,
    diskState: string,
    peer: Option<string>,
    connectionState: string,
    peerRole: string,
    peerDiskState: string,
    splitBrain: bool)

  function MakeEntry(r: LineKind, p: LineKind, d: LineKind, splitBrain: bool): Entry
    requires r.Resource? && p.Peer? && d.Detail?
  {
    Entry(r.name, r.role, r.disk, Some(p.peer), p.conn, d.peerRole, d.peerDisk, splitBrain)
  }

  const NO_DETAIL := Detail("", "")

  // The last detail line before the next header.
  function LastDetail(ks: seq<LineKind>, found: LineKind): LineKind {
    if ks == [] || ks[0].Resource? || ks[0].Peer? then found
    else LastDetail(ks[1..], if ks[0].Detail? then ks[0] else found)
  }

  // Block structure: a resource header governs the peers that follow it, and a
  // peer owns the detail lines up to the next header.
  function Entries(ks: seq<LineKind>, current: Option<LineKind>, splitBrain: bool): seq<Entry>
    requires current.Some? ==> current.value.Resource?
  {
    if ks == [] then []
    else if ks[0].Resource? then Entries(ks[1..], Some(ks[0]), splitBrain)
    else if ks[0].Peer? && current.Some? then
      [MakeEntry(current.value, ks[0], EnsureDetail(LastDetail(ks[1..], NO_DETAIL)), splitBrain)]
      + Entries(ks[1..], current, splitBrain)
    else Entries(ks[1..], current, splitBrain)
  }

  function EnsureDetail(k: LineKind): (d: LineKind)
    ensures d.Detail?
    ensures k.Detail? ==> d == k
  {
    if k.Detail? then k else NO_DETAIL
  }

  function Kinds(lines: seq<string>): seq<LineKind> {
    seq(|lines|, i requires 0 <= i < |lines| => Classify(lines[i]))
  }

  const UNATTRIBUTED := Entry("<unknown>", "", "", None, "", "", "", true)

  function DrbdEntries(raw: string): seq<Entry> {
    var marker := HasSplitBrainMarker(raw);
    var entries := Entries(Kinds(SplitLines(raw)), None, marker);
    if raw != [] && entries == [] && marker then [UNATTRIBUTED] else entries
  }

  // A peer header waiting for its detail line, and the detail line so far.
  datatype Pending = Pending(header: LineKind, detail: LineKind)

  predicate WellKinded(current: Option<LineKind>, pending: Option<Pending>) {
    && (current.Some? ==> current.value.Resource?)
    && (pending.Some? ==> pending.value.header.Peer? && pending.value.detail.Detail?)
  }

  // What flushing the pending peer adds.
  function Flushed(current: Option<LineKind>, pending: Option<Pending>, marker: bool): seq<Entry>
    requires WellKinded(current, pending)
  {
    if current.None? || pending.None? then []
    else [MakeEntry(current.value, pending.value.header, pending.value.detail, marker)]
  }

  // The pending peer once it has seen the detail lines still to come.
  function Completed(ks: seq<LineKind>, pending: Option<Pending>): Option<Pending>
    requires pending.Some? ==> pending.value.detail.Detail?
  {
    if pending.None? then None
    else Some(Pending(pending.value.header, EnsureDetail(LastDetail(ks, pending.value.detail))))
  }

  // What the loop still has to deliver: the completed pending peer, then the
  // entries of the remaining lines.
  function Rest(ks: seq<LineKind>, current: Option<LineKind>, pending: Option<Pending>, marker: bool): seq<Entry>
    requires WellKinded(current, pending)
  {
    Flushed(current, Completed(ks, pending), marker) + Entries(ks, current, marker)
  }

  lemma RestAtHeader(ks: seq<LineKind>, current: Option<LineKind>, pending: Option<Pending>, marker: bool)
    requires WellKinded(current, pending) && ks != []
    ensures ks[0].Resource? ==>
      Rest(ks, current, pending, marker)
        == Flushed(current, pending, marker) + Rest(ks[1..], Some(ks[0]), None, marker)
    ensures ks[0].Peer? && current.Some? ==>
      Rest(ks, current, pending, marker)
        == Flushed(current, pending, marker) + Rest(ks[1..], current, Some(Pending(ks[0], NO_DETAIL)), marker)
  {
    hide MakeEntry;
    assert Completed(ks, pending) == pending || !(ks[0].Resource? || ks[0].Peer?);
  }

  lemma RestPastHeader(ks: seq<LineKind>, current: Option<LineKind>, pending: Option<Pending>, marker: bool)
    requires WellKinded(current, pending) && ks != [] && !ks[0].Resource?
    requires ks[0].Peer? ==> current.None?
    ensures var pending' := if ks[0].Detail? && pending.Some? then Some(Pending(pending.value.header, ks[0]))
                            else pending;
            Rest(ks, current, pending, marker) == Rest(ks[1..], current, pending', marker)
  {
    hide MakeEntry;
  }

  // Appends the pending peer, if there is one.
  method FlushPeer(out: seq<Entry>, current: Option<LineKind>, pending: Option<Pending>, marker: bool)
    returns (out': seq<Entry>)
    requires WellKinded(current, pending)
    ensures out' == out + Flushed(current, pending, marker)
  {
    out' := out;
    if current.None? || pending.None? {
      return;
    }
    out' := out + [MakeEntry(current.value, pending.value.header, pending.value.detail, marker)];
  }

  method ParseDrbd(raw: string) returns (out: seq<Entry>)
    ensures out == DrbdEntries(raw)
  {
    out := [];
    if raw == [] {
      return;
    }
    var marker := HasSplitBrainMarker(raw);
    var current: Option<LineKind> := None;
    var pending: Option<Pending> := None;
    var lines := SplitLines(raw);
    ghost var ks := Kinds(lines);
    hide Classify, HasSplitBrainMarker, SplitLines, Entries, Rest, Flushed;
    EntriesAreTheRest(ks, marker);
    for i := 0 to |lines|
      invariant WellKinded(current, pending)
      invariant Entries(ks, None, marker) == out + Rest(ks[i..], current, pending, marker)
    {
      var kind := Classify(lines[i]);
      assert ks[i..][0] == kind && ks[i..][1..] == ks[i + 1..];
      if kind.Resource? {
        RestAtHeader(ks[i..], current, pending, marker);
        ConcatAssociates(out, Flushed(current, pending, marker), Rest(ks[i + 1..], Some(kind), None, marker));
        out := FlushPeer(out, current, pending, marker);
        pending := None;
        current := Some(kind);
        continue;
      }
      if kind.Peer? && current.Some? {
        var next := Some(Pending(kind, NO_DETAIL));
        RestAtHeader(ks[i..], current, pending, marker);
        ConcatAssociates(out, Flushed(current, pending, marker), Rest(ks[i + 1..], current, next, marker));
        out := FlushPeer(out, current, pending, marker);
        pending := next;
        continue;
      }
      RestPastHeader(ks[i..], current, pending, marker);
      if kind.Detail? && pending.Some? {
        pending := Some(Pending(pending.value.header, kind));
        continue;
      }
    }
    assert ks[|lines|..] == [];
    NothingLeft(current, pending, marker);
    out := FlushPeer(out, current, pending, marker);
    if out == [] && marker {
      out := out + [UNATTRIBUTED];
    }
  }

  lemma EntriesAreTheRest(ks: seq<LineKind>, marker: bool)
    ensures Entries(ks, None, marker) == [] + Rest(ks[0..], None, None, marker)
  {
    assert ks[0..] == ks;
  }

  lemma NothingLeft(current: Option<LineKind>, pending: Option<Pending>, marker: bool)
    requires WellKinded(current, pending)
    ensures Rest([], current, pending, marker) == Flushed(current, pending, marker)
  {
  }

  // ---- The same, told by line numbers ----

  // The nearest resource header above line n.
  function Nearest(ks: seq<LineKind>, n: nat, current: Option<LineKind>): (r: Option<LineKind>)
    requires n <= |ks| && (current.Some? ==> current.value.Resource?)
    ensures r.Some? ==> r.value.Resource?
  {
    if n == 0 then current
    else if ks[n - 1].Resource? then Some(ks[n - 1])
    else Nearest(ks, n - 1, current)
  }

  // Line p heads an entry: it is a peer header below some resource header.
  predicate HeadsEntry(ks: seq<LineKind>, p: nat)
    requires p < |ks|
  {
    ks[p].Peer? && Nearest(ks, p, None).Some?
  }

  function EntryAt(ks: seq<LineKind>, p: nat, splitBrain: bool): Entry
    requires p < |ks| && HeadsEntry(ks, p)
  {
    MakeEntry(Nearest(ks, p, None).value, ks[p], EnsureDetail(LastDetail(ks[p + 1..], NO_DETAIL)), splitBrain)
  }

  function EntriesFromLine(ks: seq<LineKind>, p: nat, splitBrain: bool): seq<Entry>
    requires p <= |ks|
    decreases |ks| - p
  {
    if p == |ks| then []
    else (if HeadsEntry(ks, p) then [EntryAt(ks, p, splitBrain)] else []) + EntriesFromLine(ks, p + 1, splitBrain)
  }

  // One entry per peer header below a resource header, in order, each with the
  // nearest resource above it and the last detail line before the next header.
  lemma {:induction false} EntriesByLine(ks: seq<LineKind>, p: nat, splitBrain: bool)
    requires p <= |ks|
    ensures Entries(ks[p..], Nearest(ks, p, None), splitBrain) == EntriesFromLine(ks, p, splitBrain)
    decreases |ks| - p
  {
    if p < |ks| {
      EntriesByLine(ks, p + 1, splitBrain);
      assert ks[p..][0] == ks[p] && ks[p..][1..] == ks[p + 1..];
    }
  }

  lemma DrbdEntriesByLine(raw: string)
    ensures var ks, marker := Kinds(SplitLines(raw)), HasSplitBrainMarker(raw);
            DrbdEntries(raw) == if EntriesFromLine(ks, 0, marker) == [] && marker then [UNATTRIBUTED]
                                else EntriesFromLine(ks, 0, marker)
  {
    var ks := Kinds(SplitLines(raw));
    EntriesByLine(ks, 0, HasSplitBrainMarker(raw));
    assert ks[0..] == ks;
  }
}
