// MQSC reply text to attribute rows.
module MqscParser {
  import opened Wrappers
  import opened Text
  import opened MqscValue

  type Row = map<string, string>

  // ---- Message lines ----

  // A distributed message identifier with its colon: AMQ, four digits, a letter.
  predicate AmqIdAt(s: string, i: nat) {
    && i + 9 <= |s|
    && s[i] == 'A' && s[i + 1] == 'M' && s[i + 2] == 'Q'
    && IsDigit(s[i + 3]) && IsDigit(s[i + 4]) && IsDigit(s[i + 5]) && IsDigit(s[i + 6])
    && IsUpper(s[i + 7]) && s[i + 8] == ':'
  }

  // The shape of a z/OS message identifier: CSQ, a component, three digits, a letter.
  predicate CsqShaped(s: string) {
    && |s| >= 8
    && s[0] == 'C' && s[1] == 'S' && s[2] == 'Q'
    && (IsUpper(s[3]) || IsDigit(s[3]))
    && IsDigit(s[4]) && IsDigit(s[5]) && IsDigit(s[6]) && IsUpper(s[7])
  }

  predicate StartsWithMessageId(s: string) {
    AmqIdAt(s, 0) || (CsqShaped(s) && (|s| == 8 || !IsWordChar(s[8])))
  }

  predicate IsMessageLine(line: string) {
    StartsWithMessageId(StripLeft(line))
  }

  // A line is a message line exactly when, behind white space, it starts with
  // AMQ, four digits, a capital and a colon, or with CSQ, a capital or digit,
  // three digits and a capital that end a word.
  lemma MessageLineIff(gap: string, t: string)
    requires forall i | 0 <= i < |gap| :: IsSpace(gap[i])
    requires t != [] ==> !IsSpace(t[0])
    ensures IsMessageLine(gap + t) <==>
      || (&& |t| >= 9 && t[0] == 'A' && t[1] == 'M' && t[2] == 'Q'
          && '0' <= t[3] <= '9' && '0' <= t[4] <= '9' && '0' <= t[5] <= '9' && '0' <= t[6] <= '9'
          && 'A' <= t[7] <= 'Z' && t[8] == ':')
      || (&& |t| >= 8 && t[0] == 'C' && t[1] == 'S' && t[2] == 'Q'
          && ('A' <= t[3] <= 'Z' || '0' <= t[3] <= '9')
          && '0' <= t[4] <= '9' && '0' <= t[5] <= '9' && '0' <= t[6] <= '9' && 'A' <= t[7] <= 'Z'
          && (|t| > 8 ==> !('A' <= t[8] <= 'Z' || 'a' <= t[8] <= 'z' || '0' <= t[8] <= '9' || t[8] == '_')))
  {
    StripLeftGap(gap, t);
    hide StripLeft;
  }

  // ---- Message identifiers that are not at the start of a line ----

  predicate IsBlank(c: char) {
    c == ' ' || c == '\t'
  }

  function BlankRun(s: string): (n: nat)
    ensures n <= |s|
    ensures n < |s| ==> !IsBlank(s[n])
  {
    if s != [] && IsBlank(s[0]) then 1 + BlankRun(s[1..]) else 0
  }

  // Replaces each run of blanks between a non-space character and an AMQ
  // identifier by a newline; afterWord says whether the character before s is
  // such a non-space character.
  function BreakBeforeIds(s: string, afterWord: bool): string
    decreases |s|
  {
    if s == [] then []
    else if afterWord && IsBlank(s[0]) && AmqIdAt(s, BlankRun(s)) then
      "\n" + BreakBeforeIds(s[BlankRun(s)..], false)
    else
      [s[0]] + BreakBeforeIds(s[1..], !IsSpace(s[0]))
  }

  function ReplyLines(text: string): seq<string> {
    SplitLines(BreakBeforeIds(text, false))
  }

  // ---- One attribute line ----

  predicate IsKeyChar(c: char) {
    IsUpper(c) || IsDigit(c) || c == '_'
  }

  function KeyCharRun(s: string): (n: nat)
    ensures n <= |s|
    ensures n < |s| ==> !IsKeyChar(s[n])
  {
    if s != [] && IsKeyChar(s[0]) then 1 + KeyCharRun(s[1..]) else 0
  }

  lemma {:induction false} KeyRunOf(k: string, s: string)
    requires forall i | 0 <= i < |k| :: IsKeyChar(k[i])
    requires s != [] ==> !IsKeyChar(s[0])
    ensures KeyCharRun(k + s) == |k|
  {
    if k == [] {
      assert k + s == s;
    } else {
      assert (k + s)[0] == k[0] && (k + s)[1..] == k[1..] + s;
      KeyRunOf(k[1..], s);
    }
  }

  // The length of the key that s starts with, 0 if there is none.
  function KeyLength(s: string): (n: nat)
    ensures n <= |s|
  {
    if s != [] && IsUpper(s[0]) then KeyCharRun(s) else 0
  }

  lemma {:induction false} KeyRunIs(s: string, k: nat)
    ensures KeyCharRun(s) == k <==>
      && k <= |s|
      && (forall i | 0 <= i < k :: 'A' <= s[i] <= 'Z' || '0' <= s[i] <= '9' || s[i] == '_')
      && (k < |s| ==> !('A' <= s[k] <= 'Z' || '0' <= s[k] <= '9' || s[k] == '_'))
  {
    if s != [] && IsKeyChar(s[0]) && k > 0 {
      KeyRunIs(s[1..], k - 1);
      assert s == [s[0]] + s[1..];
    }
  }

  // A key is a capital and the longest run of capitals, digits and underscores
  // behind it.
  lemma KeyIsTheLongestRun(s: string, k: nat)
    requires k > 0
    ensures KeyLength(s) == k <==>
      && k <= |s| && 'A' <= s[0] <= 'Z'
      && (forall i | 1 <= i < k :: 'A' <= s[i] <= 'Z' || '0' <= s[i] <= '9' || s[i] == '_')
      && (k < |s| ==> !('A' <= s[k] <= 'Z' || '0' <= s[k] <= '9' || s[k] == '_'))
  {
    KeyRunIs(s, k);
  }

  predicate IsPair(s: string) {
    0 < KeyLength(s) < |s| && s[KeyLength(s)] == '('
  }

  predicate IsToken(s: string, pairsOnly: bool) {
    var k := KeyLength(s);
    && k > 0
    && (k < |s| ==> s[k] == '(' || IsSpace(s[k]))
    && (pairsOnly ==> IsPair(s))
  }

  function Drop(s: string, n: nat): string {
    if n <= |s| then s[n..] else []
  }

  // A repeated key takes the later value.
  function Put(attrs: Row, key: string, value: string): Row {
    attrs[key := value]
  }

  // What the rest s of a line adds to the attributes found so far.
  function AttributesFrom(s: string, attrs: Row, pairsOnly: bool): Row
    decreases |s|
  {
    if s == [] then attrs
    else if IsSpace(s[0]) then AttributesFrom(s[1..], attrs, pairsOnly)
    else if !IsToken(s, pairsOnly) then
      if attrs == map[] && !pairsOnly then map[]
      else AttributesFrom(s[WordLength(s)..], attrs, pairsOnly)
    else
      var k := KeyLength(s);
      if IsPair(s) then
        AttributesFrom(Drop(s, k + 1 + Consumed(s[k + 1..])),
                       Put(attrs, s[..k], ValueOf(s[k + 1..])), pairsOnly)
      else AttributesFrom(s[k..], Put(attrs, s[..k], ""), pairsOnly)
  }

  function Attributes(line: string, pairsOnly: bool): Row {
    AttributesFrom(line, map[], pairsOnly)
  }

  // The same, told by positions in the line.
  function AttributesAt(line: string, i: nat, attrs: Row, pairsOnly: bool): Row {
    AttributesFrom(Drop(line, i), attrs, pairsOnly)
  }

  // The end of the key at position i; i itself if there is none.
  function KeyEnd(line: string, i: nat): (end: nat)
    requires i <= |line|
    ensures i <= end <= |line|
  {
    i + KeyLength(line[i..])
  }

  predicate ProseAt(line: string, i: nat, pairsOnly: bool)
    requires i <= |line|
  {
    var end := KeyEnd(line, i);
    || end == i
    || (end < |line| && line[end] != '(' && !IsSpace(line[end]))
    || (pairsOnly && !(end < |line| && line[end] == '('))
  }

  lemma SliceSlice(line: string, i: nat, m: nat)
    requires i + m <= |line|
    ensures line[i..][m..] == line[i + m..] && line[i..][..m] == line[i..i + m]
  {
  }

  lemma StepOverSpace(line: string, i: nat, attrs: Row, pairsOnly: bool)
    requires i < |line| && IsSpace(line[i])
    ensures AttributesAt(line, i, attrs, pairsOnly) == AttributesAt(line, i + 1, attrs, pairsOnly)
  {
    SliceSlice(line, i, 1);
  }

  lemma StepOverProse(line: string, i: nat, attrs: Row, pairsOnly: bool)
    requires i < |line| && !IsSpace(line[i]) && ProseAt(line, i, pairsOnly)
    ensures WordLength(line[i..]) > 0
    ensures AttributesAt(line, i, attrs, pairsOnly)
         == if attrs == map[] && !pairsOnly then map[]
            else AttributesAt(line, i + WordLength(line[i..]), attrs, pairsOnly)
  {
    assert !IsToken(line[i..], pairsOnly);
    SliceSlice(line, i, WordLength(line[i..]));
  }

  lemma StepOverKeyword(line: string, i: nat, attrs: Row, pairsOnly: bool)
    requires i < |line| && !IsSpace(line[i]) && !ProseAt(line, i, pairsOnly)
    requires KeyEnd(line, i) < |line| ==> line[KeyEnd(line, i)] != '('
    ensures var end := KeyEnd(line, i);
            i < end && AttributesAt(line, i, attrs, pairsOnly)
                       == AttributesAt(line, end, Put(attrs, line[i..end], ""), pairsOnly)
  {
    SliceSlice(line, i, KeyLength(line[i..]));
  }

  lemma PairUnfolds(s: string, attrs: Row, pairsOnly: bool)
    requires s != [] && !IsSpace(s[0]) && IsToken(s, pairsOnly) && IsPair(s)
    ensures var k := KeyLength(s);
            AttributesFrom(s, attrs, pairsOnly)
            == AttributesFrom(Drop(s, k + 1 + Consumed(s[k + 1..])), Put(attrs, s[..k], ValueOf(s[k + 1..])), pairsOnly)
  {
    hide Put, Consumed, ValueOf, KeyLength, Drop;
  }

  lemma PairAt(line: string, i: nat, pairsOnly: bool)
    requires i < |line| && !IsSpace(line[i]) && !ProseAt(line, i, pairsOnly)
    requires KeyEnd(line, i) < |line| && line[KeyEnd(line, i)] == '('
    ensures var s := line[i..];
            s != [] && !IsSpace(s[0]) && IsToken(s, pairsOnly) && IsPair(s) && KeyEnd(line, i) == i + KeyLength(s)
  {
    hide KeyLength, IsSpace;
    assert line[i..][KeyLength(line[i..])] == line[KeyEnd(line, i)];
  }

  lemma StepOverPair(line: string, i: nat, attrs: Row, pairsOnly: bool)
    requires i < |line| && !IsSpace(line[i]) && !ProseAt(line, i, pairsOnly)
    requires KeyEnd(line, i) < |line| && line[KeyEnd(line, i)] == '('
    ensures var end := KeyEnd(line, i);
            var t := line[end + 1..];
            AttributesAt(line, i, attrs, pairsOnly)
            == AttributesAt(line, end + 1 + Consumed(t), Put(attrs, line[i..end], ValueOf(t)), pairsOnly)
  {
    hide Put, Consumed, ValueOf, KeyLength, AttributesFrom, IsSpace, ProseAt, IsToken, IsPair, KeyEnd, Drop;
    var s, k := line[i..], KeyLength(line[i..]);
    PairAt(line, i, pairsOnly);
    PairUnfolds(s, attrs, pairsOnly);
    SliceSlice(line, i, k);
    SliceSlice(line, i, k + 1);
    var m := k + 1 + Consumed(line[i + k + 1..]);
    DropSlice(line, i, m);
  }

  lemma DropSlice(line: string, i: nat, m: nat)
    requires i <= |line|
    ensures Drop(line, i) == line[i..] && Drop(line[i..], m) == Drop(line, i + m)
  {
    if i + m <= |line| {
      SliceSlice(line, i, m);
    }
  }

  lemma AttributesStart(line: string, pairsOnly: bool)
    ensures Attributes(line, pairsOnly) == AttributesAt(line, 0, map[], pairsOnly)
  {
    assert Drop(line, 0) == line;
  }

  lemma AttributesEnd(line: string, i: nat, attrs: Row, pairsOnly: bool)
    requires i >= |line|
    ensures AttributesAt(line, i, attrs, pairsOnly) == attrs
  {
  }

  // The inner loop that skips a word which is not an attribute.
  method SkipWord(line: string, start: nat) returns (i: nat)
    requires start <= |line|
    ensures i == start + WordLength(line[start..])
  {
    i := start;
    while i < |line| && !IsSpace(line[i])
      invariant start <= i <= |line|
      invariant i + WordLength(line[i..]) == start + WordLength(line[start..])
    {
      assert line[i..][1..] == line[i + 1..];
      i := i + 1;
    }
  }

  method ParseAttributes(line: string, pairsOnly: bool) returns (attrs: Row)
    ensures attrs == Attributes(line, pairsOnly)
  {
    attrs := map[];
    var i, n := 0, |line|;
    AttributesStart(line, pairsOnly);
    hide Attributes, AttributesAt, AttributesFrom, KeyEnd, KeyLength, WordLength, Consumed, ValueOf, IsSpace, Drop, Put;
    while i < n
      invariant Attributes(line, pairsOnly) == AttributesAt(line, i, attrs, pairsOnly)
      decreases n - i
    {
      if IsSpace(line[i]) {
        StepOverSpace(line, i, attrs, pairsOnly);
        i := i + 1;
        continue;
      }
      var end := KeyEnd(line, i);
      var isPair := i < end < n && line[end] == '(';
      if end == i
         || (end < n && line[end] != '(' && !IsSpace(line[end]))
         || (pairsOnly && !isPair)
      {
        StepOverProse(line, i, attrs, pairsOnly);
        if attrs == map[] && !pairsOnly {
          return map[];
        }
        i := SkipWord(line, i);
        continue;
      }
      var key := line[i..end];
      if isPair {
        StepOverPair(line, i, attrs, pairsOnly);
        var value, next := ReadValue(line, end + 1);
        attrs := Put(attrs, key, value);
        i := next;
      } else {
        StepOverKeyword(line, i, attrs, pairsOnly);
        attrs := Put(attrs, key, "");
        i := end;
      }
    }
    AttributesEnd(line, i, attrs, pairsOnly);
  }

  // ---- Rows ----

  // A row is kept only if it has attributes; before the first message line there
  // is no row at all.
  function Kept(current: Option<Row>): (rows: seq<Row>)
    ensures |rows| <= 1
  {
    if current.Some? && current.value != map[] then [current.value] else []
  }

  function RowsFrom(lines: seq<string>, current: Option<Row>): seq<Row>
    decreases |lines|
  {
    if lines == [] then Kept(current)
    else if IsMessageLine(lines[0]) then
      Kept(current) + RowsFrom(lines[1..], Some(Attributes(lines[0], true)))
    else if current.None? then RowsFrom(lines[1..], None)
    else RowsFrom(lines[1..], Some(current.value + Attributes(lines[0], false)))
  }

  function Rows(lines: seq<string>): seq<Row> {
    RowsFrom(lines, None)
  }

  method ParseMqscReply(text: string) returns (rows: seq<Row>)
    ensures rows == Rows(ReplyLines(text))
  {
    rows := [];
    var current: Option<Row> := None;
    var lines := ReplyLines(text);
    hide Attributes, IsMessageLine, ReplyLines;
    for i := 0 to |lines|
      invariant Rows(lines) == rows + RowsFrom(lines[i..], current)
    {
      var line := lines[i];
      assert lines[i..][0] == line && lines[i..][1..] == lines[i + 1..];
      if IsMessageLine(line) {
        if current.Some? && current.value != map[] {
          rows := rows + [current.value];
        }
        var attrs := ParseAttributes(line, true);
        current := Some(attrs);
        continue;
      }
      if current.None? {
        continue;
      }
      var attrs := ParseAttributes(line, false);
      current := Some(current.value + attrs);
    }
    if current.Some? && current.value != map[] {
      rows := rows + [current.value];
    }
  }

  // ---- Properties of row grouping ----

  function CountMessageLines(lines: seq<string>): nat {
    if lines == [] then 0
    else (if IsMessageLine(lines[0]) then 1 else 0) + CountMessageLines(lines[1..])
  }

  lemma {:induction false} RowsConcatFrom(a: seq<string>, b: seq<string>, current: Option<Row>)
    requires b == [] || IsMessageLine(b[0])
    ensures RowsFrom(a + b, current) == RowsFrom(a, current) + Rows(b)
    decreases |a|
  {
    if a == [] {
      assert a + b == b;
    } else {
      assert (a + b)[0] == a[0] && (a + b)[1..] == a[1..] + b;
      if IsMessageLine(a[0]) {
        RowsConcatFrom(a[1..], b, Some(Attributes(a[0], true)));
      } else if current.None? {
        RowsConcatFrom(a[1..], b, None);
      } else {
        RowsConcatFrom(a[1..], b, Some(current.value + Attributes(a[0], false)));
      }
    }
  }

  predicate EndsIds(b: string) {
    b != [] && !IsBlank(b[0]) && !IsUpper(b[0]) && !IsDigit(b[0]) && b[0] != ':'
  }

  function AfterWord(a: string, afterWord: bool): bool {
    if a == [] then afterWord else !IsSpace(a[|a| - 1])
  }

  // Breaking lines before identifiers is done separately on either side of a
  // character that is neither blank nor part of an identifier.
  lemma {:induction false} BreakConcat(a: string, b: string, afterWord: bool)
    requires EndsIds(b)
    ensures BreakBeforeIds(a + b, afterWord)
         == BreakBeforeIds(a, afterWord) + BreakBeforeIds(b, AfterWord(a, afterWord))
    decreases |a|
  {
    if a == [] {
      assert a + b == b;
    } else {
      var n := BlankRun(a);
      BlankRunConcat(a, b);
      IdStaysLeft(a, b, n);
      var breaks := afterWord && IsBlank(a[0]) && AmqIdAt(a, n);
      var m, out, flag := if breaks then n else 1, if breaks then "\n" else [a[0]], !breaks && !IsSpace(a[0]);
      DropConcat(a, b, m);
      BreakConcat(a[m..], b, flag);
      assert BreakBeforeIds(a, afterWord) == out + BreakBeforeIds(a[m..], flag);
      assert BreakBeforeIds(a + b, afterWord) == out + BreakBeforeIds(a[m..] + b, flag);
      assert AfterWord(a[m..], flag) == AfterWord(a, afterWord);
      hide *;
      ConcatAssociates(out, BreakBeforeIds(a[m..], flag), BreakBeforeIds(b, AfterWord(a, afterWord)));
    }
  }

  lemma {:induction false} BlankRunConcat(a: string, b: string)
    requires b != [] && !IsBlank(b[0])
    ensures BlankRun(a + b) == BlankRun(a)
  {
    if a == [] {
      assert a + b == b;
    } else {
      assert (a + b)[1..] == a[1..] + b;
      BlankRunConcat(a[1..], b);
    }
  }

  lemma IdStaysLeft(a: string, b: string, n: nat)
    requires n <= |a| && EndsIds(b)
    ensures AmqIdAt(a + b, n) == AmqIdAt(a, n)
  {
    var s := a + b;
    assert s[|a|] == b[0];
    assert forall i | 0 <= i < |a| :: s[i] == a[i];
  }

  lemma BreakAtLineEnd(front: string, c: char, b: string)
    requires IsLineBreak(c)
    ensures BreakBeforeIds(front + [c] + b, false)
         == BreakBeforeIds(front, false) + [c] + BreakBeforeIds(b, false)
  {
    var broken, rest := BreakBeforeIds(front, false), [c] + b;
    BreakConcat(front, rest, false);
    assert rest[0] == c && rest[1..] == b;
    assert BreakBeforeIds(rest, AfterWord(front, false)) == [c] + BreakBeforeIds(b, false);
    hide *;
    ConcatAssociates(front, [c], b);
    ConcatAssociates(broken, [c], BreakBeforeIds(b, false));
  }

  // The lines of a reply are those of its parts, if the first part ends in a
  // line break of any kind, but not in the middle of a CR LF.
  lemma ReplyLinesConcat(a: string, b: string)
    requires a != [] ==> EndsLine(a)
    requires !MeetInCrLf(a, b)
    ensures ReplyLines(a + b) == ReplyLines(a) + ReplyLines(b)
  {
    if a == [] {
      assert a + b == b;
    } else {
      var front, c := a[..|a| - 1], a[|a| - 1];
      BreakAtLineEnd(front, c, b);
      BreakAtLineEnd(front, c, "");
      assert front + [c] == a && a + "" == a;
      var broken := BreakBeforeIds(front, false) + [c];
      assert broken + "" == broken && broken[|broken| - 1] == c;
      assert b != [] ==> BreakBeforeIds(b, false)[0] == b[0];
      hide BreakBeforeIds;
      SplitLinesConcat(broken, BreakBeforeIds(b, false));
    }
  }

  // Parsing is compositional: a reply that ends at a line end, followed by one
  // that starts with a message line, gives the rows of both in order.
  lemma ParsingIsCompositional(a: string, b: string)
    requires a != [] ==> EndsLine(a)
    requires ReplyLines(b) == [] || IsMessageLine(ReplyLines(b)[0])
    ensures Rows(ReplyLines(a + b)) == Rows(ReplyLines(a)) + Rows(ReplyLines(b))
  {
    if MeetInCrLf(a, b) {
      BlankLineFirst(b);
    }
    ReplyLinesConcat(a, b);
    RowsConcatFrom(ReplyLines(a), ReplyLines(b), None);
  }

  lemma {:induction false} LinesBeforeAddNothing(before: seq<string>, lines: seq<string>)
    requires CountMessageLines(before) == 0
    ensures Rows(before + lines) == Rows(lines)
    decreases |before|
  {
    if before == [] {
      assert before + lines == lines;
    } else {
      assert (before + lines)[0] == before[0] && (before + lines)[1..] == before[1..] + lines;
      LinesBeforeAddNothing(before[1..], lines);
    }
  }

  // A reply that starts with a newline starts with an empty line.
  lemma BlankLineFirst(b: string)
    requires b != [] && b[0] == '\n'
    ensures ReplyLines(b) == [""] + ReplyLines(b[1..])
    ensures !IsMessageLine("")
  {
    var broken := BreakBeforeIds(b, false);
    assert broken == "\n" + BreakBeforeIds(b[1..], false);
    hide BreakBeforeIds;
    assert LineLength(broken) == 0 && FullLineLength(broken) == 1;
    assert broken[..0] == "" && broken[1..] == BreakBeforeIds(b[1..], false);
  }

  lemma CrLfEndsOneReplyLine(a: string)
    requires EndsLine(a) && a[|a| - 1] == '\r'
    ensures ReplyLines(a + "\n") == ReplyLines(a)
  {
    var front := a[..|a| - 1];
    BreakAtLineEnd(front, '\r', "");
    BreakAtLineEnd(front, '\r', "\n");
    assert front + "\r" == a && a + "" == a && "\n"[1..] == "" && BreakBeforeIds("\n", false) == "\n";
    var broken := BreakBeforeIds(front, false);
    assert broken + "\r" + "" == broken + "\r" && broken + "\r" + "\n" == broken + "\r\n";
    CrLfEndsOneLine(broken);
  }

  // Text in front of a reply that ends at a line end of any kind and holds no
  // message line changes nothing.
  lemma TextBeforeAddsNothing(before: string, text: string)
    requires before != [] ==> EndsLine(before)
    requires CountMessageLines(ReplyLines(before)) == 0
    ensures Rows(ReplyLines(before + text)) == Rows(ReplyLines(text))
  {
    if MeetInCrLf(before, text) {
      var more, rest := before + "\n", text[1..];
      CrLfEndsOneReplyLine(before);
      BlankLineFirst(text);
      assert before + text == more + rest;
      ReplyLinesConcat(more, rest);
      LinesBeforeAddNothing(ReplyLines(more), ReplyLines(rest));
      LinesBeforeAddNothing([""], ReplyLines(rest));
    } else {
      ReplyLinesConcat(before, text);
      LinesBeforeAddNothing(ReplyLines(before), ReplyLines(text));
    }
  }

  // What the first character behind the white space decides.
  lemma ProseHasNoAttributes(gap: string, prose: string)
    requires forall i | 0 <= i < |gap| :: IsSpace(gap[i])
    requires prose != [] ==> !IsSpace(prose[0]) && !('A' <= prose[0] <= 'Z')
    ensures Attributes(gap + prose, false) == map[] && !IsMessageLine(gap + prose)
  {
    StripLeftGap(gap, prose);
    SpacesAreSkipped(gap, prose, false);
    hide KeyCharRun;
  }

  lemma {:induction false} SpacesAreSkipped(gap: string, s: string, pairsOnly: bool)
    requires forall i | 0 <= i < |gap| :: IsSpace(gap[i])
    ensures Attributes(gap + s, pairsOnly) == Attributes(s, pairsOnly)
  {
    if gap == [] {
      assert gap + s == s;
    } else {
      assert (gap + s)[0] == gap[0] && (gap + s)[1..] == gap[1..] + s;
      SpacesAreSkipped(gap[1..], s, pairsOnly);
    }
  }

  lemma {:induction false} EmptyLineAddsNothing(before: seq<string>, line: string, after: seq<string>, current: Option<Row>)
    requires !IsMessageLine(line) && Attributes(line, false) == map[]
    ensures RowsFrom(before + ([line] + after), current) == RowsFrom(before + after, current)
    decreases |before|
  {
    hide IsMessageLine, Attributes;
    if before == [] {
      assert before + ([line] + after) == [line] + after && before + after == after;
      assert ([line] + after)[1..] == after;
      assert current.Some? ==> current.value + map[] == current.value;
    } else {
      var all := before + ([line] + after);
      assert all[0] == before[0] && all[1..] == before[1..] + ([line] + after);
      assert (before + after)[0] == before[0] && (before + after)[1..] == before[1..] + after;
      EmptyLineAddsNothing(before[1..], line, after,
                           if IsMessageLine(before[0]) then Some(Attributes(before[0], true))
                           else if current.None? then None
                           else Some(current.value + Attributes(before[0], false)));
    }
  }

  // A line whose first character behind white space is no capital, such as a
  // command echo or "2 MQSC commands read.", leaves the rows as they are.
  lemma ProseLineAddsNothing(before: seq<string>, gap: string, prose: string, after: seq<string>)
    requires forall i | 0 <= i < |gap| :: IsSpace(gap[i])
    requires prose != [] ==> !IsSpace(prose[0]) && !('A' <= prose[0] <= 'Z')
    ensures Rows(before + ([gap + prose] + after)) == Rows(before + after)
  {
    ProseHasNoAttributes(gap, prose);
    EmptyLineAddsNothing(before, gap + prose, after, None);
  }

  // No row is empty, and there are at most as many rows as message lines.
  lemma {:induction false} RowsAreFewAndNonEmpty(lines: seq<string>, current: Option<Row>)
    ensures forall row <- RowsFrom(lines, current) :: row != map[]
    ensures |RowsFrom(lines, current)| <= CountMessageLines(lines) + (if current.Some? then 1 else 0)
    decreases |lines|
  {
    if lines != [] {
      if IsMessageLine(lines[0]) {
        RowsAreFewAndNonEmpty(lines[1..], Some(Attributes(lines[0], true)));
      } else if current.None? {
        RowsAreFewAndNonEmpty(lines[1..], None);
      } else {
        RowsAreFewAndNonEmpty(lines[1..], Some(current.value + Attributes(lines[0], false)));
      }
    }
  }
}
