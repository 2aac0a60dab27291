// The message identifiers in a reply.
module MqscMessageIds {
  import opened Wrappers
  import opened Text
  import opened MqscValue
  import opened MqscParser
  import MqscPrinter

  // The text before the first colon.
  function BeforeColon(s: string): (r: string)
    ensures r <= s
  {
    if s == [] || s[0] == ':' then [] else [s[0]] + BeforeColon(s[1..])
  }

  function MessageId(line: string): string {
    var words := Words(BeforeColon(Strip(line)));
    if words == [] then [] else words[0]
  }

  function MessageIdsOf(lines: seq<string>): seq<string> {
    if lines == [] then []
    else if IsMessageLine(lines[0]) then [MessageId(lines[0])] + MessageIdsOf(lines[1..])
    else MessageIdsOf(lines[1..])
  }

  method MessageIds(text: string) returns (ids: seq<string>)
    ensures ids == MessageIdsOf(SplitLines(text))
  {
    ids := [];
    var lines := SplitLines(text);
    hide IsMessageLine, MessageId;
    for i := 0 to |lines|
      invariant MessageIdsOf(lines) == ids + MessageIdsOf(lines[i..])
    {
      assert lines[i..][0] == lines[i] && lines[i..][1..] == lines[i + 1..];
      if IsMessageLine(lines[i]) {
        ids := ids + [MessageId(lines[i])];
      }
    }
  }

  lemma {:induction false} BeforeColonConcat(a: string, b: string)
    requires forall i | 0 <= i < |a| :: a[i] != ':'
    ensures BeforeColon(a + b) == a + BeforeColon(b)
  {
    if a == [] {
      assert a + b == b;
    } else {
      assert (a + b)[0] == a[0] && (a + b)[1..] == a[1..] + b;
      BeforeColonConcat(a[1..], b);
    }
  }

  // A message line gives the eight characters of its identifier exactly when
  // they are followed by white space, a colon or nothing; a z/OS identifier
  // with other punctuation behind it keeps that punctuation.
  lemma IdIsTheEightCharacters(line: string)
    requires IsMessageLine(line)
    ensures var s := Strip(line);
            && |s| >= 8
            && (MessageId(line) == s[..8] <==> |s| == 8 || s[8] == ':' || IsSpace(s[8]))
  {
    var u, s := StripLeft(line), Strip(line);
    StripKeepsNonSpace(u, 7);
    var id, rest := s[..8], s[8..];
    assert forall i | 0 <= i < 8 :: id[i] == u[i];
    assert s == id + rest;
    IdOfSplit(id, rest);
    assert rest != [] ==> rest[0] == s[8];
  }

  lemma IdOfSplit(id: string, rest: string)
    requires |id| == 8 && forall i | 0 <= i < 8 :: id[i] != ':' && !IsSpace(id[i])
    ensures var words := Words(BeforeColon(id + rest));
            words != [] && (words[0] == id <==> rest == [] || rest[0] == ':' || IsSpace(rest[0]))
  {
    var tail := BeforeColon(rest);
    BeforeColonConcat(id, rest);
    WordLengthConcat(id, tail);
    var b := id + tail;
    assert b[0] == id[0] && |b[..8 + WordLength(tail)]| == 8 + WordLength(tail);
    assert b[..8] == id;
  }

  lemma {:induction false} StripKeepsNonSpace(u: string, n: nat)
    requires n < |u| && !IsSpace(u[n])
    ensures StripRight(u) <= u && |StripRight(u)| > n
    decreases |u|
  {
    if IsSpace(u[|u| - 1]) {
      StripKeepsNonSpace(u[..|u| - 1], n);
    }
  }

  // The identifiers are taken from the text as it stands, the rows from the text
  // broken before inline identifiers.
  lemma InlineMessageHasNoId(first: string, second: string)
    requires IsMessageLine(first) && AmqIdAt(second, 0)
    requires NoLineBreak(first) && NoLineBreak(second)
    requires BreakBeforeIds(first, false) == first && BreakBeforeIds(second, false) == second
    requires !IsSpace(first[|first| - 1])
    ensures var text := first + " " + second;
            ReplyLines(text) == [first, second] && SplitLines(text) == [text]
            && |MessageIdsOf(SplitLines(text))| <= 1
  {
    var text := first + " " + second;
    assert text == first + (" " + second);
    BreakBeforeSecond(first, second, false);
    SplitTwo(first, second);
    SplitOne(text);
  }

  lemma SplitTwo(first: string, second: string)
    requires NoLineBreak(first) && NoLineBreak(second) && second != []
    ensures SplitLines(first + ("\n" + second)) == [first, second]
  {
    assert first + ("\n" + second) == (first + "\n") + second;
    SplitLinesConcat(first + "\n", second);
    assert Unlines([first]) == first + "\n" by {
      assert [first][1..] == [];
      assert first + "\n" + "" == first + "\n";
    }
    SplitUnlines([first]);
    SplitOne(second);
  }

  lemma SplitOne(line: string)
    requires NoLineBreak(line) && line != []
    ensures SplitLines(line) == [line]
  {
    assert LineLength(line) == |line| && line[..|line|] == line && line[|line|..] == [];
  }

  lemma {:induction false} BreakBeforeSecond(first: string, second: string, afterWord: bool)
    requires first != [] && !IsSpace(first[|first| - 1]) && AmqIdAt(second, 0)
    requires BreakBeforeIds(first, afterWord) == first
    requires BreakBeforeIds(second, false) == second
    requires NoLineBreak(first)
    ensures BreakBeforeIds(first + (" " + second), afterWord) == first + ("\n" + second)
    decreases |first|
  {
    var tail, broken := " " + second, "\n" + second;
    var head, rest := [first[0]], first[1..];
    assert NoLineBreak(rest) && first == head + rest;
    NoBreakAtHead(first, second, afterWord);
    DropConcat(first, tail, 1);
    hide BreakBeforeIds, AmqIdAt, NoLineBreak;
    if rest == [] {
      BlankThenId(second);
      assert rest + tail == tail && head == first;
    } else {
      assert rest[|rest| - 1] == first[|first| - 1];
      BreakBeforeSecond(rest, second, !IsSpace(first[0]));
      ConcatAssociates(head, rest, broken);
    }
  }

  lemma NoBreakAtHead(first: string, second: string, afterWord: bool)
    requires first != [] && !IsSpace(first[|first| - 1]) && NoLineBreak(first)
    requires BreakBeforeIds(first, afterWord) == first
    ensures BreakBeforeIds(first[1..], !IsSpace(first[0])) == first[1..]
    ensures BreakBeforeIds(first + (" " + second), afterWord)
         == [first[0]] + BreakBeforeIds((first + (" " + second))[1..], !IsSpace(first[0]))
  {
    var text := first + (" " + second);
    assert text[0] == first[0];
    RunInside(first, " " + second);
    IdAcross(first, second, BlankRun(first));
    assert BreakBeforeIds(first, afterWord)[0] == first[0];
    assert BreakBeforeIds(first, afterWord)[1..] == first[1..];
  }

  lemma BlankThenId(second: string)
    requires AmqIdAt(second, 0) && BreakBeforeIds(second, false) == second
    ensures BreakBeforeIds(" " + second, true) == "\n" + second
  {
    var tail := " " + second;
    assert tail[1..] == second;
    assert BlankRun(tail) == 1;
    assert AmqIdAt(tail, 1);
  }

  lemma {:induction false} RunInside(a: string, b: string)
    requires a != [] && !IsSpace(a[|a| - 1])
    ensures BlankRun(a + b) == BlankRun(a) < |a|
  {
    assert (a + b)[0] == a[0] && (a + b)[1..] == a[1..] + b;
    if IsBlank(a[0]) {
      RunInside(a[1..], b);
    }
  }

  // A space is no part of an identifier.
  lemma IdAcross(first: string, second: string, n: nat)
    requires n < |first|
    ensures AmqIdAt(first + (" " + second), n) == AmqIdAt(first, n)
  {
    var s := first + (" " + second);
    assert s[|first|] == ' ';
    assert forall i | 0 <= i < |first| :: s[i] == first[i];
  }

  // ---- How many identifiers are missed ----

  // The number of line breaks put in before inline identifiers.
  function Breaks(s: string, afterWord: bool): nat
    decreases |s|
  {
    if s == [] then 0
    else if afterWord && IsBlank(s[0]) && AmqIdAt(s, BlankRun(s)) then 1 + Breaks(s[BlankRun(s)..], false)
    else Breaks(s[1..], !IsSpace(s[0]))
  }

  // Where the first of them is put; the end of s if there is none.
  function FirstBreak(s: string, afterWord: bool): (p: nat)
    ensures p <= |s|
    decreases |s|
  {
    if s == [] then 0
    else if afterWord && IsBlank(s[0]) && AmqIdAt(s, BlankRun(s)) then 0
    else 1 + FirstBreak(s[1..], !IsSpace(s[0]))
  }

  function Behind(s: string, m: nat, afterWord: bool): bool
    requires m <= |s|
  {
    if m == 0 then afterWord else !IsSpace(s[m - 1])
  }

  // Up to the first break nothing changes.
  lemma {:induction false} UpToFirstBreak(s: string, m: nat, afterWord: bool)
    requires m <= FirstBreak(s, afterWord)
    ensures BreakBeforeIds(s, afterWord) == s[..m] + BreakBeforeIds(s[m..], Behind(s, m, afterWord))
    ensures Breaks(s, afterWord) == Breaks(s[m..], Behind(s, m, afterWord))
    ensures FirstBreak(s, afterWord) == m + FirstBreak(s[m..], Behind(s, m, afterWord))
    decreases m
  {
    if m == 0 {
      assert s[0..] == s && s[..0] == [];
    } else {
      var rest := s[1..];
      UpToFirstBreak(rest, m - 1, !IsSpace(s[0]));
      assert rest[m - 1..] == s[m..] && s[..m] == [s[0]] + rest[..m - 1];
      assert m > 1 ==> rest[m - 2] == s[m - 1];
      hide AmqIdAt, BlankRun;
      ConcatAssociates([s[0]], rest[..m - 1], BreakBeforeIds(s[m..], Behind(s, m, afterWord)));
    }
  }

  // What the first break looks like: a run of blanks between a word and an
  // identifier becomes a line feed.
  lemma AtFirstBreak(s: string) returns (p: nat, q: nat)
    requires FirstBreak(s, false) < |s|
    ensures p == FirstBreak(s, false) && 0 < p < q && q + 9 <= |s| && AmqIdAt(s, q)
    ensures !IsSpace(s[p - 1]) && forall i | p <= i < q :: IsBlank(s[i])
    ensures BreakBeforeIds(s, false) == s[..p] + ("\n" + BreakBeforeIds(s[q..], false))
    ensures Breaks(s, false) == 1 + Breaks(s[q..], false)
  {
    p := FirstBreak(s, false);
    UpToFirstBreak(s, p, false);
    var u := s[p..];
    var run := BlankRun(u);
    RunIsBlank(u);
    q := p + run;
    assert u[run..] == s[q..];
    assert forall i | 0 <= i < run :: s[p + i] == u[i];
    assert forall i | run <= i < |u| :: s[p + i] == u[i];
  }

  lemma {:induction false} RunIsBlank(s: string)
    ensures forall i | 0 <= i < BlankRun(s) :: IsBlank(s[i])
  {
    if s != [] && IsBlank(s[0]) {
      RunIsBlank(s[1..]);
      assert forall i | 1 <= i < BlankRun(s) :: s[i] == s[1..][i - 1];
    }
  }

  lemma NothingChangesIffNoBreak(s: string)
    ensures BreakBeforeIds(s, false) == s <==> Breaks(s, false) == 0
  {
    if FirstBreak(s, false) < |s| {
      var p, q := AtFirstBreak(s);
      assert BreakBeforeIds(s, false)[p] == '\n' && IsBlank(s[p]);
    } else {
      UpToFirstBreak(s, |s|, false);
      assert s[|s|..] == [] && s[..|s|] == s;
    }
  }

  lemma {:induction false} OneIdPerMessageLine(lines: seq<string>)
    ensures |MessageIdsOf(lines)| == CountMessageLines(lines)
  {
    if lines != [] {
      OneIdPerMessageLine(lines[1..]);
      hide IsMessageLine, MessageId;
    }
  }

  lemma {:induction false} StripLeftOfHead(line: string, p: nat) returns (k: nat)
    requires 0 < p <= |line| && !IsSpace(line[p - 1])
    ensures k < p && StripLeft(line) == line[k..] && StripLeft(line[..p]) == line[k..p]
    decreases p
  {
    if IsSpace(line[0]) {
      assert line[1..][..p - 1] == line[..p][1..];
      var j := StripLeftOfHead(line[1..], p - 1);
      k := j + 1;
      assert line[1..][j..] == line[k..] && line[1..][j..p - 1] == line[k..p];
    } else {
      k := 0;
    }
  }

  // Cutting a line at a blank keeps its beginning, and that is all that counts.
  lemma HeadDecides(line: string, p: nat)
    requires 0 < p < |line| && !IsSpace(line[p - 1]) && IsBlank(line[p])
    ensures IsMessageLine(line[..p]) <==> IsMessageLine(line)
  {
    var k := StripLeftOfHead(line, p);
    var u, v := line[k..], line[k..p];
    assert forall i | 0 <= i < |v| :: v[i] == u[i];
    assert u[|v|] == line[p];
  }

  lemma {:induction false} LineLengthFrom(s: string, q: nat)
    requires q <= LineLength(s)
    ensures LineLength(s[q..]) == LineLength(s) - q
    decreases q
  {
    if q == 0 {
      assert s[0..] == s;
    } else {
      LineLengthFrom(s[1..], q - 1);
      assert s[1..][q - 1..] == s[q..];
    }
  }

  lemma FirstLineFrom(s: string, q: nat)
    requires q <= LineLength(s)
    ensures LineLength(s[q..]) == LineLength(s) - q && FullLineLength(s[q..]) == FullLineLength(s) - q
    ensures s[q..][..LineLength(s) - q] == s[..LineLength(s)][q..]
    ensures s[q..][FullLineLength(s[q..])..] == s[FullLineLength(s)..]
  {
    var n := LineLength(s);
    LineLengthFrom(s, q);
    hide LineLength;
    assert n < |s| ==> s[q..][n - q] == s[n];
    assert n + 1 < |s| ==> s[q..][n + 1 - q] == s[n + 1];
  }

  function Messages(s: string): nat {
    CountMessageLines(SplitLines(s))
  }

  function IsOne(b: bool): nat {
    if b then 1 else 0
  }

  lemma MessagesByLine(s: string)
    requires s != []
    ensures Messages(s) == IsOne(IsMessageLine(s[..LineLength(s)])) + Messages(s[FullLineLength(s)..])
  {
    var lines := SplitLines(s);
    assert lines[0] == s[..LineLength(s)] && lines[1..] == SplitLines(s[FullLineLength(s)..]);
    hide IsMessageLine, SplitLines;
  }

  lemma MessagesOfLine(line: string, rest: string)
    requires NoLineBreak(line)
    ensures Messages(line + ("\n" + rest)) == IsOne(IsMessageLine(line)) + Messages(rest)
  {
    var s := line + ("\n" + rest);
    hide Messages, IsMessageLine, LineLength, NoLineBreak;
    LineLengthAt(line, "\n" + rest);
    assert s[..|line|] == line && s[|line|] == '\n' && s[|line| + 1..] == rest;
    MessagesByLine(s);
  }

  lemma IdHasNoBreak(s: string, q: nat, i: nat)
    requires AmqIdAt(s, q) && q <= i < q + 9
    ensures !IsLineBreak(s[i])
  {
    assert i in {q, q + 1, q + 2, q + 3, q + 4, q + 5, q + 6, q + 7, q + 8};
  }

  lemma IdWithinFirstLine(s: string, p: nat, q: nat)
    requires p <= q && q + 9 <= |s| && AmqIdAt(s, q) && p < LineLength(s)
    requires forall i | p <= i < q :: IsBlank(s[i])
    ensures q + 9 <= LineLength(s)
  {
    var n := LineLength(s);
    forall i | p <= i < q + 9 ensures !IsLineBreak(s[i]) {
      if i >= q {
        IdHasNoBreak(s, q, i);
      }
    }
    hide AmqIdAt, LineLength;
    assert n >= q + 9;
  }

  lemma LineBehindBreak(s: string, p: nat, q: nat)
    requires 0 < p < q && q + 9 <= LineLength(s) && AmqIdAt(s, q)
    requires !IsSpace(s[p - 1]) && IsBlank(s[p])
    ensures var line := s[..LineLength(s)];
            IsMessageLine(line[q..]) && (IsMessageLine(s[..p]) <==> IsMessageLine(line))
  {
    var line := s[..LineLength(s)];
    hide LineLength;
    assert AmqIdAt(line[q..], 0);
    assert line[..p] == s[..p];
    hide AmqIdAt;
    IdLineIsMessage(line[q..]);
    HeadDecides(line, p);
  }

  // A break inside the first line cuts it in two message lines, or in one that
  // is none and one that is.
  lemma BreakInFirstLine(s: string, p: nat, q: nat)
    requires 0 < p < q && q + 9 <= |s| && AmqIdAt(s, q) && p < LineLength(s)
    requires !IsSpace(s[p - 1]) && forall i | p <= i < q :: IsBlank(s[i])
    ensures q <= LineLength(s)
    ensures Messages(s) + 1 == IsOne(IsMessageLine(s[..p])) + Messages(s[q..])
  {
    hide AmqIdAt, IsMessageLine, Messages, LineLength, FullLineLength, IsBlank, IsLineBreak, IsSpace;
    IdWithinFirstLine(s, p, q);
    LineBehindBreak(s, p, q);
    FirstLineFrom(s, q);
    MessagesByLine(s);
    MessagesByLine(s[q..]);
  }

  lemma IdLineIsMessage(line: string)
    requires AmqIdAt(line, 0)
    ensures IsMessageLine(line)
  {
    assert StripLeft(line) == line;
  }

  lemma NoBreakInFirstLine(s: string)
    requires s != [] && LineLength(s) <= FirstBreak(s, false)
    ensures FullLineLength(s) <= FirstBreak(s, false)
  {
    var n, m, p := LineLength(s), FullLineLength(s), FirstBreak(s, false);
    if p < |s| {
      var p', q := AtFirstBreak(s);
      assert IsBlank(s[p]) && !IsSpace(s[p - 1]);
      assert n < |s| && IsLineBreak(s[n]);
    }
  }

  lemma BreakKeepsHead(s: string)
    ensures var t := BreakBeforeIds(s, false); if s == [] then t == [] else t != [] && t[0] == s[0]
  {
  }

  lemma MessagesAfterUnbrokenLine(s: string)
    requires s != [] && LineLength(s) <= FirstBreak(s, false)
    ensures var m := FullLineLength(s);
            && Messages(BreakBeforeIds(s, false))
                 == IsOne(IsMessageLine(s[..LineLength(s)])) + Messages(BreakBeforeIds(s[m..], false))
            && Breaks(s, false) == Breaks(s[m..], false)
  {
    var m := FullLineLength(s);
    var rest := BreakBeforeIds(s[m..], false);
    UnbrokenLineIsKept(s);
    hide BreakBeforeIds, Breaks, FirstBreak, LineLength, FullLineLength, Messages, IsMessageLine;
    SameFirstLine(s, rest);
    MessagesByLine(s[..m] + rest);
  }

  lemma UnbrokenLineIsKept(s: string)
    requires s != [] && LineLength(s) <= FirstBreak(s, false)
    ensures var m := FullLineLength(s);
            var rest := BreakBeforeIds(s[m..], false);
            && BreakBeforeIds(s, false) == s[..m] + rest
            && Breaks(s, false) == Breaks(s[m..], false)
            && if m == |s| then rest == [] else rest != [] && rest[0] == s[m]
  {
    var m := FullLineLength(s);
    hide BreakBeforeIds, Breaks, FirstBreak, LineLength, FullLineLength;
    NoBreakInFirstLine(s);
    FirstLineEnds(s);
    UpToFirstBreak(s, m, false);
    BreakKeepsHead(s[m..]);
    if m == |s| {
      assert s[m..] == [];
      NothingToBreak(Behind(s, m, false));
      NothingToBreak(false);
    }
  }

  lemma NothingToBreak(afterWord: bool)
    ensures BreakBeforeIds([], afterWord) == [] && Breaks([], afterWord) == 0
  {
  }

  lemma FirstLineEnds(s: string)
    requires s != []
    ensures var m := FullLineLength(s); m > 0 && (m < |s| ==> !Behind(s, m, false))
  {
    hide LineLength;
  }

  // What follows the first line does not change it.
  lemma SameFirstLine(s: string, rest: string)
    requires s != []
    requires var m := FullLineLength(s); if m == |s| then rest == [] else rest != [] && rest[0] == s[m]
    ensures var m, n := FullLineLength(s), LineLength(s);
            var t := s[..m] + rest;
            t != [] && LineLength(t) == n && FullLineLength(t) == m && t[..n] == s[..n] && t[m..] == rest
  {
    var n, m := LineLength(s), FullLineLength(s);
    var t := s[..m] + rest;
    hide LineLength;
    HeadStays(s, rest, n, m);
    SameLineLength(s, t, n);
    hide *;
    SameFullLength(s, t, n);
  }

  lemma HeadStays(s: string, rest: string, n: nat, m: nat)
    requires n <= m <= |s| && (m < |s| ==> rest != [] && rest[0] == s[m])
    ensures var t := s[..m] + rest;
            && t[..n] == s[..n] && t[m..] == rest
            && (forall i | 0 <= i < m :: t[i] == s[i]) && (m < |s| ==> m < |t| && t[m] == s[m])
  {
  }

  lemma SameFullLength(s: string, t: string, n: nat)
    requires n == LineLength(s) == LineLength(t) && FullLineLength(s) <= |t|
    requires forall i | 0 <= i < FullLineLength(s) :: t[i] == s[i]
    requires FullLineLength(s) < |s| ==> FullLineLength(s) < |t| && t[FullLineLength(s)] == s[FullLineLength(s)]
    requires FullLineLength(s) == |s| ==> |t| == |s|
    ensures FullLineLength(t) == FullLineLength(s)
  {
    hide LineLength;
  }

  lemma {:induction false} SameLineLength(s: string, t: string, n: nat)
    requires n == LineLength(s) && n <= |t| && s[..n] == t[..n]
    requires n < |s| ==> n < |t| && t[n] == s[n]
    requires n == |s| ==> n == |t|
    ensures LineLength(t) == n
    decreases n
  {
    if n > 0 {
      assert s[0] == s[..n][0] == t[..n][0] == t[0];
      assert s[1..][..n - 1] == s[..n][1..] && t[1..][..n - 1] == t[..n][1..];
      SameLineLength(s[1..], t[1..], n - 1);
    }
  }

  // Each break adds one message line.
  lemma {:induction false} EachBreakAddsAMessage(s: string)
    ensures Messages(BreakBeforeIds(s, false)) == Messages(s) + Breaks(s, false)
    decreases |s|
  {
    if s != [] {
      var n, m := LineLength(s), FullLineLength(s);
      if FirstBreak(s, false) < n {
        var p, q := AtFirstBreak(s);
        hide IsMessageLine, BreakBeforeIds, Breaks, FirstBreak, Messages, AmqIdAt;
        BreakInFirstLine(s, p, q);
        MessagesOfLine(s[..p], BreakBeforeIds(s[q..], false));
        EachBreakAddsAMessage(s[q..]);
      } else {
        hide IsMessageLine, BreakBeforeIds, Breaks, FirstBreak, Messages, AmqIdAt;
        MessagesAfterUnbrokenLine(s);
        MessagesByLine(s);
        EachBreakAddsAMessage(s[m..]);
      }
    }
  }

  // ---- Where replies are broken ----

  // An identifier with its colon stands at j, behind blanks and, at i, other text.
  predicate InlineIdAt(s: string, i: nat, j: nat) {
    && i + 1 < j && j + 9 <= |s| && !IsSpace(s[i])
    && (forall k | i < k < j :: s[k] == ' ' || s[k] == '\t')
    && s[j] == 'A' && s[j + 1] == 'M' && s[j + 2] == 'Q'
    && (forall k | j + 3 <= k < j + 7 :: '0' <= s[k] <= '9')
    && 'A' <= s[j + 7] <= 'Z' && s[j + 8] == ':'
  }

  lemma {:induction false} BlankRunIs(s: string, i: nat, j: nat)
    requires i <= j < |s| && s[j] != ' ' && s[j] != '\t'
    requires forall k | i <= k < j :: s[k] == ' ' || s[k] == '\t'
    ensures BlankRun(s[i..]) == j - i
    decreases j - i
  {
    if i < j {
      assert s[i..][1..] == s[i + 1..];
      BlankRunIs(s, i + 1, j);
    }
  }

  lemma {:induction false} BlankRunIsBlank(s: string, i: nat)
    requires i <= |s|
    ensures forall k | i <= k < i + BlankRun(s[i..]) :: s[k] == ' ' || s[k] == '\t'
    decreases |s| - i
  {
    if i < |s| && IsBlank(s[i]) {
      assert s[i..][1..] == s[i + 1..];
      BlankRunIsBlank(s, i + 1);
    }
  }

  // The text s[i..] starts with a run of blanks and an identifier behind it.
  predicate BreaksAt(s: string, i: nat) {
    i < |s| && IsBlank(s[i]) && AmqIdAt(s[i..], BlankRun(s[i..]))
  }

  lemma IdSpelled(s: string, j: nat)
    ensures AmqIdAt(s, j) <==>
      && j + 9 <= |s| && s[j] == 'A' && s[j + 1] == 'M' && s[j + 2] == 'Q'
      && (forall k | j + 3 <= k < j + 7 :: '0' <= s[k] <= '9')
      && 'A' <= s[j + 7] <= 'Z' && s[j + 8] == ':'
  {
    if j + 9 <= |s| && forall k | j + 3 <= k < j + 7 :: '0' <= s[k] <= '9' {
      assert IsDigit(s[j + 3]) && IsDigit(s[j + 4]) && IsDigit(s[j + 5]) && IsDigit(s[j + 6]);
    }
  }

  lemma InlineBreaks(s: string, i: nat, j: nat)
    requires InlineIdAt(s, i, j)
    ensures BreaksAt(s, i + 1)
  {
    BlankRunIs(s, i + 1, j);
    IdSpelled(s, j);
    hide AmqIdAt, BlankRun;
    IdInTail(s, i + 1, j - i - 1);
  }

  lemma BreakIsInline(s: string, i: nat)
    requires i < |s| && !IsSpace(s[i]) && BreaksAt(s, i + 1)
    ensures exists j: nat :: InlineIdAt(s, i, j)
  {
    var n := BlankRun(s[i + 1..]);
    assert n > 0;
    BlankRunIsBlank(s, i + 1);
    hide AmqIdAt, BlankRun;
    IdInTail(s, i + 1, n);
    IdSpelled(s, i + 1 + n);
    assert InlineIdAt(s, i, i + 1 + n);
  }

  lemma InlineIffBreaks(s: string, i: nat)
    ensures (exists j: nat :: InlineIdAt(s, i, j)) <==> i < |s| && !IsSpace(s[i]) && BreaksAt(s, i + 1)
  {
    hide BreaksAt;
    if j: nat :| InlineIdAt(s, i, j) {
      InlineBreaks(s, i, j);
    }
    if i < |s| && !IsSpace(s[i]) && BreaksAt(s, i + 1) {
      BreakIsInline(s, i);
    }
  }

  lemma {:induction false} BreaksFrom(s: string, i: nat, afterWord: bool)
    requires i <= |s|
    ensures Breaks(s[i..], afterWord) > 0
       <==> (afterWord && BreaksAt(s, i)) || (exists p: nat, j: nat | i <= p :: InlineIdAt(s, p, j))
    decreases |s| - i
  {
    if i < |s| {
      assert s[i..][1..] == s[i + 1..];
      BreaksFrom(s, i + 1, !IsSpace(s[i]));
      InlineIffBreaks(s, i);
      hide InlineIdAt, AmqIdAt;
      assert (exists p: nat, j: nat | i <= p :: InlineIdAt(s, p, j))
        <==> (exists j: nat :: InlineIdAt(s, i, j)) || (exists p: nat, j: nat | i + 1 <= p :: InlineIdAt(s, p, j));
      if afterWord && BreaksAt(s, i) {
        assert Breaks(s[i..], afterWord) > 0;
      }
    }
  }

  // A reply is left as it is exactly when no identifier stands inside a line.
  lemma UnchangedIffNothingInline(text: string)
    ensures BreakBeforeIds(text, false) == text <==> !exists i: nat, j: nat :: InlineIdAt(text, i, j)
  {
    NothingChangesIffNoBreak(text);
    assert text[0..] == text;
    BreaksFrom(text, 0, false);
    hide InlineIdAt, BreakBeforeIds, Breaks;
  }

  // There are never more identifiers than message lines of the parsed reply, and
  // as many exactly when no identifier stands inside a line.
  lemma AsManyIdsIffNothingInline(text: string)
    ensures var ids, messages := |MessageIdsOf(SplitLines(text))|, CountMessageLines(ReplyLines(text));
            && ids <= messages
            && (ids == messages <==> BreakBeforeIds(text, false) == text)
            && (ids == messages <==> !exists i: nat, j: nat :: InlineIdAt(text, i, j))
  {
    UnchangedIffNothingInline(text);
    OneIdPerMessageLine(SplitLines(text));
    EachBreakAddsAMessage(text);
    NothingChangesIffNoBreak(text);
    hide InlineIdAt, BreakBeforeIds, Breaks, MessageIdsOf, CountMessageLines, SplitLines;
  }

  // Two messages on one line, each with an attribute of its own, give two rows
  // and one identifier.
  lemma InlineMessageAddsARow(first: string, second: string)
    requires IsMessageLine(first) && AmqIdAt(second, 0)
    requires NoLineBreak(first) && NoLineBreak(second)
    requires BreakBeforeIds(first, false) == first && BreakBeforeIds(second, false) == second
    requires !IsSpace(first[|first| - 1])
    requires Attributes(first, true) != map[] && Attributes(second, true) != map[]
    ensures var text := first + " " + second;
            |Rows(ReplyLines(text))| == 2 && |MessageIdsOf(SplitLines(text))| == 1
  {
    var text := first + " " + second;
    InlineMessageHasNoId(first, second);
    IdLineIsMessage(second);
    assert text[..|first|] == first && text[|first|] == ' ' && text[|first| - 1] == first[|first| - 1];
    HeadDecides(text, |first|);
    hide *;
    RowsOfTwoMessages(first, second);
    IdsOfOneMessage(text);
  }

  lemma RowsOfTwoMessages(first: string, second: string)
    requires IsMessageLine(first) && IsMessageLine(second)
    requires Attributes(first, true) != map[] && Attributes(second, true) != map[]
    ensures Rows([first, second]) == [Attributes(first, true), Attributes(second, true)]
  {
    hide IsMessageLine, Attributes;
    assert [first, second][1..] == [second] && [second][1..] == [];
    assert RowsFrom([second], Some(Attributes(first, true)))
        == [Attributes(first, true)] + RowsFrom([], Some(Attributes(second, true)));
  }

  lemma IdsOfOneMessage(text: string)
    requires IsMessageLine(text)
    ensures |MessageIdsOf([text])| == 1
  {
    hide IsMessageLine, MessageId;
    assert [text][1..] == [];
  }

  // A message line with one attribute without a value.
  function ShortMessage(id: string, key: char): string {
    id + (": " + ([key] + "()"))
  }

  predicate IsAmqId(id: string) {
    |id| == 8 && AmqIdAt(id + ":", 0)
  }

  lemma ShortMessageWord(id: string, key: char)
    requires IsAmqId(id)
    ensures var s := ShortMessage(id, key);
            WordLength(s) == 9 && KeyLength(s) == 8 && s[9..] == " " + ([key] + "()")
  {
    var s, word, rest := ShortMessage(id, key), id + ":", " " + ([key] + "()");
    assert forall i | 0 <= i < 8 :: id[i] == word[i];
    assert s == word + rest && s == id + (":" + rest);
    WordLengthConcat(word, rest);
    KeyRunOf(id, ":" + rest);
  }

  lemma ShortMessageStartsWithProse(id: string, key: char)
    requires IsAmqId(id)
    ensures var s := ShortMessage(id, key);
            !IsSpace(s[0]) && !IsToken(s, true)
  {
    var s, word := ShortMessage(id, key), id + ":";
    ShortMessageWord(id, key);
    assert s[0] == word[0] && s[8] == word[8];
    hide ShortMessage, KeyLength;
  }

  lemma ReadsOnlyPair(key: char)
    requires IsUpper(key)
    ensures AttributesFrom(" " + ([key] + "()"), map[], true) == map[[key] := ""]
  {
    var pair := [key] + "()";
    MqscPrinter.ReadPair([key], "", "", map[], true);
    assert MqscPrinter.PrintToken(MqscPrinter.Pair([key], "")) + "" == pair;
    hide AttributesFrom;
    MqscPrinter.SkipGap(" ", pair, map[], true);
    NothingToRead(map[][[key] := ""]);
  }

  lemma ShortMessageAttributes(id: string, key: char)
    requires IsAmqId(id) && IsUpper(key)
    ensures Attributes(ShortMessage(id, key), true) == map[[key] := ""]
  {
    ShortMessageWord(id, key);
    ShortMessageStartsWithProse(id, key);
    hide ShortMessage, KeyLength, IsToken, AttributesFrom;
    SkipsProse(ShortMessage(id, key), map[]);
    ReadsOnlyPair(key);
  }

  lemma SkipsProse(s: string, attrs: Row)
    requires s != [] && !IsSpace(s[0]) && !IsToken(s, true)
    ensures AttributesFrom(s, attrs, true) == AttributesFrom(s[WordLength(s)..], attrs, true)
  {
  }

  lemma NothingToRead(attrs: Row)
    ensures AttributesFrom("", attrs, true) == attrs
  {
  }

  lemma ShortMessageIsOneLine(id: string, key: char)
    requires IsAmqId(id) && IsUpper(key)
    ensures var s := ShortMessage(id, key);
            && AmqIdAt(s, 0) && IsMessageLine(s) && NoLineBreak(s) && !IsSpace(s[|s| - 1])
            && BreakBeforeIds(s, false) == s
  {
    var s, word := ShortMessage(id, key), id + ":";
    assert forall i | 0 <= i < 9 :: s[i] == word[i];
    IdLineIsMessage(s);
    forall i: nat | 0 < i < |s| ensures !AmqIdAt(s, i) {
      assert i + 9 <= |s| ==> i in {1, 2, 3, 4};
    }
    hide IsMessageLine;
    NoIdNoBreak(s, 0, false);
    assert s[0..] == s;
  }

  // Replies of two such messages on one line: two rows, one identifier.
  lemma MoreRowsThanIds(id: string, key: char)
    requires IsAmqId(id) && IsUpper(key)
    ensures var text := ShortMessage(id, key) + " " + ShortMessage(id, key);
            |Rows(ReplyLines(text))| == 2 && |MessageIdsOf(SplitLines(text))| == 1
  {
    ShortMessageAttributes(id, key);
    ShortMessageIsOneLine(id, key);
    var s := ShortMessage(id, key);
    assert Attributes(s, true) != map[] by {
      assert [key] in Attributes(s, true);
    }
    hide *;
    InlineMessageAddsARow(s, s);
  }

  lemma SampleHasMoreRowsThanIds()
    ensures exists text :: |Rows(ReplyLines(text))| > |MessageIdsOf(SplitLines(text))|
  {
    var id := "AMQ8417I";
    assert IsAmqId(id);
    MoreRowsThanIds(id, 'A');
  }

  lemma IdInTail(s: string, i: nat, n: nat)
    requires i <= |s|
    ensures AmqIdAt(s[i..], n) <==> AmqIdAt(s, i + n)
  {
    assert forall k | 0 <= k < |s| - i :: s[i..][k] == s[i + k];
  }

  lemma {:induction false} NoIdNoBreak(s: string, i: nat, afterWord: bool)
    requires i <= |s| && forall j: nat | 0 < j < |s| :: !AmqIdAt(s, j)
    ensures BreakBeforeIds(s[i..], afterWord) == s[i..]
    decreases |s| - i
  {
    if i < |s| {
      var u := s[i..];
      NoIdNoBreak(s, i + 1, !IsSpace(s[i]));
      assert u[1..] == s[i + 1..] && u == [s[i]] + u[1..];
      IdInTail(s, i, BlankRun(u));
      assert IsBlank(u[0]) ==> !AmqIdAt(u, BlankRun(u));
    }
  }
}
