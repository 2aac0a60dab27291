// A printer for MQSC replies, and the proof that parsing undoes it.
module MqscPrinter {
  import opened Wrappers
  import opened Text
  import opened MqscValue
  import opened MqscParser

  datatype Token =
    | Pair(key: string, value: string)
    | Keyword(key: string)

  // A token and the blanks written before it.
  datatype Placed = Placed(gap: string, token: Token)

  // The tokens of a line and the blanks behind the last of them.
  datatype AttributeLine = AttributeLine(tokens: seq<Placed>, tail: string)

  // A message line and the attribute lines below it.
  datatype Block = Block(header: string, lines: seq<AttributeLine>)

  predicate LegalKey(k: string) {
    k != [] && IsUpper(k[0]) && forall i | 0 <= i < |k| :: IsKeyChar(k[i])
  }

  predicate LegalValue(v: string) {
    && Balanced(v) && Trimmed(v) && NoLineBreak(v)
    && BreakBeforeIds(v, false) == v
  }

  predicate IsGap(g: string) {
    forall i | 0 <= i < |g| :: IsBlank(g[i])
  }

  predicate LegalPlaced(p: Placed) {
    IsGap(p.gap) && LegalKey(p.token.key) && (p.token.Pair? ==> LegalValue(p.token.value))
  }

  function PrintToken(t: Token): string {
    match t
    case Pair(key, value) => key + ("(" + (value + ")"))
    case Keyword(key) => key
  }

  function PrintLine(ps: seq<Placed>, tail: string): string {
    if ps == [] then tail else ps[0].gap + (PrintToken(ps[0].token) + PrintLine(ps[1..], tail))
  }

  function TokenValue(t: Token): string {
    if t.Pair? then t.value else ""
  }

  // The attributes a line stands for, on top of those already known.
  function Merge(ps: seq<Placed>, attrs: Row): Row {
    if ps == [] then attrs
    else Merge(ps[1..], attrs[ps[0].token.key := TokenValue(ps[0].token)])
  }

  // Blanks are needed only behind a keyword, where two keys would run together.
  predicate LegalTokens(ps: seq<Placed>, afterKeyword: bool) {
    ps != [] ==>
      && LegalPlaced(ps[0])
      && (afterKeyword ==> ps[0].gap != [])
      && LegalTokens(ps[1..], ps[0].token.Keyword?)
  }

  // ---- Reading one printed line back ----

  lemma {:induction false} SkipGap(g: string, s: string, attrs: Row, pairsOnly: bool)
    requires forall i | 0 <= i < |g| :: IsBlank(g[i])
    ensures AttributesFrom(g + s, attrs, pairsOnly) == AttributesFrom(s, attrs, pairsOnly)
  {
    if g == [] {
      assert g + s == s;
    } else {
      assert (g + s)[0] == g[0] && (g + s)[1..] == g[1..] + s;
      SkipGap(g[1..], s, attrs, pairsOnly);
    }
  }

  lemma ReadPair(key: string, value: string, rest: string, attrs: Row, pairsOnly: bool)
    requires LegalKey(key) && Balanced(value) && Trimmed(value)
    ensures AttributesFrom(PrintToken(Pair(key, value)) + rest, attrs, pairsOnly)
         == AttributesFrom(rest, attrs[key := value], pairsOnly)
  {
    var body := value + ")" + rest;
    var s := key + ("(" + body);
    PairShape(key, body);
    ReadBack(value, rest);
    assert PrintToken(Pair(key, value)) + rest == s;
    hide AttributesFrom, KeyLength, Consumed, ValueOf, Balanced, Trimmed, IsToken, IsPair;
    assert Drop(s, |key| + 1 + (|value| + 1)) == Drop(body, |value| + 1) == rest;
    PairUnfolds(s, attrs, pairsOnly);
  }

  lemma PairShape(key: string, body: string)
    requires LegalKey(key)
    ensures var s := key + ("(" + body);
            && s != [] && !IsSpace(s[0]) && IsToken(s, true) && IsToken(s, false) && IsPair(s)
            && KeyLength(s) == |key| && s[..|key|] == key && s[|key| + 1..] == body
  {
    var s := key + ("(" + body);
    KeyRunOf(key, "(" + body);
    assert s[0] == key[0] && s[|key|] == '(';
  }

  lemma ReadBack(value: string, rest: string)
    requires Balanced(value) && Trimmed(value)
    ensures var body := value + ")" + rest;
            Consumed(body) == |value| + 1 && ValueOf(body) == value && body[|value| + 1..] == rest
  {
    hide Balanced, Trimmed, Strip;
    ReadsBackIffBalanced(value, rest);
  }

  lemma ReadKeyword(key: string, rest: string, attrs: Row)
    requires LegalKey(key) && (rest != [] ==> IsSpace(rest[0]))
    ensures AttributesFrom(key + rest, attrs, false) == AttributesFrom(rest, attrs[key := ""], false)
  {
    var s := key + rest;
    KeyRunOf(key, rest);
    assert s[0] == key[0] && s[..|key|] == key && s[|key|..] == rest;
    assert KeyLength(s) == |key|;
    assert rest != [] ==> s[|key|] == rest[0];
    KeywordUnfolds(s, attrs);
  }

  lemma KeywordUnfolds(s: string, attrs: Row)
    requires s != [] && !IsSpace(s[0]) && IsToken(s, false) && !IsPair(s)
    ensures AttributesFrom(s, attrs, false)
         == AttributesFrom(s[KeyLength(s)..], attrs[s[..KeyLength(s)] := ""], false)
  {
    hide KeyLength;
  }

  lemma PrintedRestStartsBlank(ps: seq<Placed>, tail: string)
    requires LegalTokens(ps, true) && IsGap(tail)
    ensures PrintLine(ps, tail) != [] ==> IsBlank(PrintLine(ps, tail)[0])
  {
    if ps != [] {
      assert PrintLine(ps, tail)[0] == ps[0].gap[0];
    }
  }

  lemma {:induction false} ReadLine(ps: seq<Placed>, tail: string, attrs: Row, afterKeyword: bool)
    requires LegalTokens(ps, afterKeyword) && IsGap(tail)
    ensures AttributesFrom(PrintLine(ps, tail), attrs, false) == Merge(ps, attrs)
    decreases |ps|
  {
    if ps == [] {
      assert tail + [] == tail;
      SkipGap(tail, [], attrs, false);
    } else {
      var p, rest := ps[0], PrintLine(ps[1..], tail);
      SkipGap(p.gap, PrintToken(p.token) + rest, attrs, false);
      match p.token {
        case Pair(key, value) => ReadPair(key, value, rest, attrs, false);
        case Keyword(key) =>
          PrintedRestStartsBlank(ps[1..], tail);
          ReadKeyword(key, rest, attrs);
      }
      ReadLine(ps[1..], tail, attrs[p.token.key := TokenValue(p.token)], p.token.Keyword?);
    }
  }

  lemma {:induction false} MergeOnTop(ps: seq<Placed>, below: Row, attrs: Row)
    ensures below + Merge(ps, attrs) == Merge(ps, below + attrs)
    decreases |ps|
  {
    if ps != [] {
      var key, value := ps[0].token.key, TokenValue(ps[0].token);
      assert below + attrs[key := value] == (below + attrs)[key := value];
      MergeOnTop(ps[1..], below, attrs[key := value]);
    }
  }

  // ---- A printed line is not mistaken for something else ----

  predicate IsCsqId(key: string) {
    |key| == 8 && CsqShaped(key)
  }

  lemma KeyIsNoAmqId(key: string, rest: string)
    requires LegalKey(key) && (rest != [] ==> rest[0] == '(' || IsBlank(rest[0]))
    ensures !AmqIdAt(key + rest, 0)
  {
    var s := key + rest;
    if |s| >= 9 {
      if |key| >= 9 {
        assert s[8] == key[8];
      } else {
        assert s[|key|] == rest[0];
      }
    }
  }

  lemma KeyStartsMessageIffCsq(key: string, rest: string)
    requires LegalKey(key) && (rest != [] ==> rest[0] == '(' || IsBlank(rest[0]))
    ensures StartsWithMessageId(key + rest) <==> IsCsqId(key)
  {
    var s := key + rest;
    KeyIsNoAmqId(key, rest);
    assert forall i | 0 <= i < |key| :: s[i] == key[i];
    if |s| > |key| {
      assert s[|key|] == rest[0];
    }
  }

  // What stands behind the key of a token.
  function BehindKey(t: Token, after: string): string {
    if t.Pair? then "(" + (t.value + ")") + after else after
  }

  lemma BehindKeyStarts(p: Placed, ps: seq<Placed>, tail: string)
    requires LegalTokens(ps, p.token.Keyword?) && IsGap(tail)
    ensures var rest := BehindKey(p.token, PrintLine(ps, tail));
            && (rest != [] ==> rest[0] == '(' || IsBlank(rest[0]))
            && PrintToken(p.token) + PrintLine(ps, tail) == p.token.key + rest
  {
    if p.token.Keyword? {
      PrintedRestStartsBlank(ps, tail);
    }
  }

  lemma BlanksAreNoMessage(tail: string)
    requires IsGap(tail)
    ensures !IsMessageLine(tail)
  {
    assert tail + [] == tail;
    StripLeftGap(tail, []);
  }

  // A printed attribute line reads as a message line exactly when its first key
  // has the shape of a z/OS message identifier.
  lemma MessageLineIffCsqKey(ps: seq<Placed>, tail: string)
    requires LegalTokens(ps, false) && IsGap(tail)
    ensures IsMessageLine(PrintLine(ps, tail)) <==> ps != [] && IsCsqId(ps[0].token.key)
  {
    if ps == [] {
      BlanksAreNoMessage(tail);
    } else {
      var p, after := ps[0], PrintLine(ps[1..], tail);
      var rest := BehindKey(p.token, after);
      BehindKeyStarts(p, ps[1..], tail);
      StripLeftGap(p.gap, p.token.key + rest);
      KeyStartsMessageIffCsq(p.token.key, rest);
    }
  }

  // ---- Line structure survives ----

  lemma {:induction false} BreakGap(g: string, s: string, afterWord: bool)
    requires IsGap(g) && g != [] && s != [] && !IsBlank(s[0]) && !AmqIdAt(s, 0)
    ensures BreakBeforeIds(g + s, afterWord) == g + BreakBeforeIds(s, false)
    decreases |g|
  {
    var all := g + s;
    GapRun(g, s);
    assert AmqIdAt(all, |g|) == AmqIdAt(s, 0) by {
      assert forall i | 0 <= i < |s| :: all[|g| + i] == s[i];
    }
    assert all[0] == g[0] && all[1..] == g[1..] + s;
    if |g| == 1 {
      assert g[1..] + s == s && g == [g[0]];
    } else {
      BreakGap(g[1..], s, false);
      assert [g[0]] + g[1..] == g;
    }
  }

  lemma {:induction false} GapRun(g: string, s: string)
    requires forall i | 0 <= i < |g| :: IsBlank(g[i])
    requires s != [] && !IsBlank(s[0])
    ensures BlankRun(g + s) == |g|
  {
    if g == [] {
      assert g + s == s;
    } else {
      assert (g + s)[0] == g[0] && (g + s)[1..] == g[1..] + s;
      GapRun(g[1..], s);
    }
  }

  lemma {:induction false} BreakKey(k: string, s: string, afterWord: bool)
    requires k != [] && forall i | 0 <= i < |k| :: IsKeyChar(k[i])
    ensures BreakBeforeIds(k + s, afterWord) == k + BreakBeforeIds(s, true)
    decreases |k|
  {
    var rest := k[1..];
    assert k == [k[0]] + rest;
    ConcatAssociates([k[0]], rest, s);
    BreakChar(k[0], rest + s, afterWord);
    hide BreakBeforeIds;
    if rest == [] {
      assert rest + s == s;
    } else {
      BreakKey(rest, s, true);
      ConcatAssociates([k[0]], rest, BreakBeforeIds(s, true));
    }
  }

  lemma BreakChar(c: char, s: string, afterWord: bool)
    requires !IsSpace(c)
    ensures BreakBeforeIds([c] + s, afterWord) == [c] + BreakBeforeIds(s, true)
  {
    assert ([c] + s)[1..] == s;
  }

  lemma BreakPair(key: string, value: string, rest: string, afterWord: bool)
    requires LegalKey(key) && LegalValue(value)
    ensures BreakBeforeIds(PrintToken(Pair(key, value)) + rest, afterWord)
         == PrintToken(Pair(key, value)) + BreakBeforeIds(rest, true)
  {
    hide BreakBeforeIds, Balanced, Strip;
    var close := [')'] + rest;
    assert PrintToken(Pair(key, value)) + rest == key + (['('] + (value + close));
    BreakKey(key, ['('] + (value + close), afterWord);
    BreakChar('(', value + close, true);
    BreakConcat(value, close, true);
    assert BreakBeforeIds(value, true) == value by {
      BreakTrimmed(value);
    }
    BreakChar(')', rest, AfterWord(value, true));
    var end := BreakBeforeIds(rest, true);
    assert key + (['('] + (value + ([')'] + end))) == PrintToken(Pair(key, value)) + end;
  }

  lemma BreakTrimmed(v: string)
    requires Trimmed(v)
    ensures BreakBeforeIds(v, true) == BreakBeforeIds(v, false)
  {
  }

  lemma {:induction false} BreakBlanks(g: string, afterWord: bool)
    requires IsGap(g)
    ensures BreakBeforeIds(g, afterWord) == g && BlankRun(g) == |g|
  {
    if g != [] {
      BreakBlanks(g[1..], false);
      assert g == [g[0]] + g[1..];
    }
  }

  lemma {:induction false} BreakLine(ps: seq<Placed>, tail: string, afterKeyword: bool, afterWord: bool)
    requires LegalTokens(ps, afterKeyword) && IsGap(tail)
    ensures BreakBeforeIds(PrintLine(ps, tail), afterWord) == PrintLine(ps, tail)
    decreases |ps|
  {
    if ps == [] {
      BreakBlanks(tail, afterWord);
    } else {
      var p, after := ps[0], PrintLine(ps[1..], tail);
      var key, rest := p.token.key, BehindKey(p.token, after);
      BehindKeyStarts(p, ps[1..], tail);
      KeyIsNoAmqId(key, rest);
      hide BreakBeforeIds, AmqIdAt, LegalValue;
      BreakLine(ps[1..], tail, p.token.Keyword?, true);
      if p.gap == [] {
        assert [] + (key + rest) == key + rest;
        BreakToken(p.token, after, afterWord);
      } else {
        BreakGap(p.gap, key + rest, afterWord);
        BreakToken(p.token, after, false);
      }
    }
  }

  lemma BreakToken(t: Token, after: string, afterWord: bool)
    requires LegalKey(t.key) && (t.Pair? ==> LegalValue(t.value))
    ensures BreakBeforeIds(PrintToken(t) + after, afterWord) == PrintToken(t) + BreakBeforeIds(after, true)
  {
    hide BreakBeforeIds, LegalValue;
    match t {
      case Pair(key, value) => BreakPair(key, value, after, afterWord);
      case Keyword(key) => BreakKey(key, after, afterWord);
    }
  }

  lemma {:induction false} PrintedLineHasNoBreak(ps: seq<Placed>, tail: string, afterKeyword: bool)
    requires LegalTokens(ps, afterKeyword) && IsGap(tail)
    ensures NoLineBreak(PrintLine(ps, tail))
    decreases |ps|
  {
    if ps != [] {
      PrintedLineHasNoBreak(ps[1..], tail, ps[0].token.Keyword?);
      var p := ps[0];
      assert NoLineBreak(p.gap) && NoLineBreak(p.token.key);
      assert NoLineBreak(PrintToken(p.token));
    }
  }

  // ---- Whole replies ----

  predicate LegalHeader(header: string) {
    IsMessageLine(header) && NoLineBreak(header) && BreakBeforeIds(header, false) == header
  }

  predicate LegalLine(line: AttributeLine) {
    && LegalTokens(line.tokens, false) && IsGap(line.tail)
    && (line.tokens != [] ==> !IsCsqId(line.tokens[0].token.key))
  }

  predicate LegalLines(lines: seq<AttributeLine>) {
    lines != [] ==> LegalLine(lines[0]) && LegalLines(lines[1..])
  }

  predicate LegalReply(blocks: seq<Block>) {
    blocks != [] ==>
      LegalHeader(blocks[0].header) && LegalLines(blocks[0].lines) && LegalReply(blocks[1..])
  }

  function PrintLines(lines: seq<AttributeLine>): seq<string> {
    if lines == [] then [] else [PrintLine(lines[0].tokens, lines[0].tail)] + PrintLines(lines[1..])
  }

  function BlockLines(b: Block): seq<string> {
    [b.header] + PrintLines(b.lines)
  }

  function ReplyOf(blocks: seq<Block>): seq<string> {
    if blocks == [] then [] else BlockLines(blocks[0]) + ReplyOf(blocks[1..])
  }

  function PrintReply(blocks: seq<Block>): string {
    Unlines(ReplyOf(blocks))
  }

  function MergeLines(lines: seq<AttributeLine>, attrs: Row): Row {
    if lines == [] then attrs else MergeLines(lines[1..], Merge(lines[0].tokens, attrs))
  }

  // The row a block stands for; later values of a key win.
  function RowOf(b: Block): Row {
    MergeLines(b.lines, Attributes(b.header, true))
  }

  function RowsOf(blocks: seq<Block>): seq<Row> {
    if blocks == [] then [] else Kept(Some(RowOf(blocks[0]))) + RowsOf(blocks[1..])
  }

  lemma {:induction false} ReadBlockLines(lines: seq<AttributeLine>, attrs: Row)
    requires LegalLines(lines)
    ensures RowsFrom(PrintLines(lines), Some(attrs)) == Kept(Some(MergeLines(lines, attrs)))
    decreases |lines|
  {
    if lines != [] {
      var tokens, line := lines[0].tokens, PrintLine(lines[0].tokens, lines[0].tail);
      MessageLineIffCsqKey(tokens, lines[0].tail);
      ReadLine(tokens, lines[0].tail, map[], false);
      MergeOnTop(tokens, attrs, map[]);
      assert attrs + map[] == attrs;
      assert PrintLines(lines)[0] == line && PrintLines(lines)[1..] == PrintLines(lines[1..]);
      ReadBlockLines(lines[1..], Merge(tokens, attrs));
    }
  }

  lemma ReadBlock(b: Block)
    requires LegalHeader(b.header) && LegalLines(b.lines)
    ensures Rows(BlockLines(b)) == Kept(Some(RowOf(b)))
  {
    var lines := BlockLines(b);
    assert lines[0] == b.header && lines[1..] == PrintLines(b.lines);
    ReadBlockLines(b.lines, Attributes(b.header, true));
  }

  lemma ReplyStartsWithMessage(blocks: seq<Block>)
    requires LegalReply(blocks)
    ensures ReplyOf(blocks) == [] || IsMessageLine(ReplyOf(blocks)[0])
  {
  }

  lemma {:induction false} ReadReplyLines(blocks: seq<Block>)
    requires LegalReply(blocks)
    ensures Rows(ReplyOf(blocks)) == RowsOf(blocks)
    decreases |blocks|
  {
    if blocks != [] {
      ReadBlock(blocks[0]);
      ReplyStartsWithMessage(blocks[1..]);
      ReadReplyLines(blocks[1..]);
      RowsConcatFrom(BlockLines(blocks[0]), ReplyOf(blocks[1..]), None);
      hide BlockLines, RowOf, Rows, RowsFrom, Kept;
    }
  }

  // Every line of a reply stays in one piece.
  predicate StableLines(lines: seq<string>) {
    lines != [] ==>
      NoLineBreak(lines[0]) && BreakBeforeIds(lines[0], false) == lines[0] && StableLines(lines[1..])
  }

  lemma {:induction false} StableConcat(a: seq<string>, b: seq<string>)
    requires StableLines(a) && StableLines(b)
    ensures StableLines(a + b)
    decreases |a|
  {
    if a == [] {
      assert a + b == b;
    } else {
      assert (a + b)[0] == a[0] && (a + b)[1..] == a[1..] + b;
      StableConcat(a[1..], b);
    }
  }

  lemma {:induction false} ReplyLinesAreStable(blocks: seq<Block>)
    requires LegalReply(blocks)
    ensures StableLines(ReplyOf(blocks))
    decreases |blocks|
  {
    if blocks != [] {
      var b := blocks[0];
      PrintedLinesAreStable(b.lines);
      ReplyLinesAreStable(blocks[1..]);
      assert BlockLines(b)[1..] == PrintLines(b.lines);
      StableConcat(BlockLines(b), ReplyOf(blocks[1..]));
    }
  }

  lemma {:induction false} PrintedLinesAreStable(lines: seq<AttributeLine>)
    requires LegalLines(lines)
    ensures StableLines(PrintLines(lines))
    decreases |lines|
  {
    if lines != [] {
      BreakLine(lines[0].tokens, lines[0].tail, false, false);
      PrintedLineHasNoBreak(lines[0].tokens, lines[0].tail, false);
      PrintedLinesAreStable(lines[1..]);
      assert PrintLines(lines)[1..] == PrintLines(lines[1..]);
    }
  }

  lemma {:induction false} StableLinesSurvive(lines: seq<string>)
    requires StableLines(lines)
    ensures BreakBeforeIds(Unlines(lines), false) == Unlines(lines)
    decreases |lines|
  {
    if lines != [] {
      var rest := Unlines(lines[1..]);
      var tail := "\n" + rest;
      assert Unlines(lines) == lines[0] + tail;
      BreakConcat(lines[0], tail, false);
      assert tail[1..] == rest;
      StableLinesSurvive(lines[1..]);
    }
  }

  lemma {:induction false} StableLinesHaveNoBreak(lines: seq<string>)
    requires StableLines(lines)
    ensures forall line <- lines :: NoLineBreak(line)
  {
    if lines != [] {
      StableLinesHaveNoBreak(lines[1..]);
      assert lines == [lines[0]] + lines[1..];
    }
  }

  // ---- What a block's row holds ----

  function AllPlaced(lines: seq<AttributeLine>): seq<Placed> {
    if lines == [] then [] else lines[0].tokens + AllPlaced(lines[1..])
  }

  // The value of the last token with the given key.
  function LastValue(ps: seq<Placed>, key: string): Option<string> {
    if ps == [] then None
    else
      var later := LastValue(ps[1..], key);
      if later.Some? then later
      else if ps[0].token.key == key then Some(TokenValue(ps[0].token))
      else None
  }

  predicate Looks(row: Row, key: string, value: Option<string>) {
    (if key in row then Some(row[key]) else None) == value
  }

  lemma {:induction false} MergeLooksUpLast(ps: seq<Placed>, attrs: Row, key: string)
    ensures var last := LastValue(ps, key);
            Looks(Merge(ps, attrs), key, if last.Some? then last else if key in attrs then Some(attrs[key]) else None)
    decreases |ps|
  {
    if ps != [] {
      MergeLooksUpLast(ps[1..], attrs[ps[0].token.key := TokenValue(ps[0].token)], key);
    }
  }

  lemma {:induction false} MergeConcat(a: seq<Placed>, b: seq<Placed>, attrs: Row)
    ensures Merge(a + b, attrs) == Merge(b, Merge(a, attrs))
    decreases |a|
  {
    if a == [] {
      assert a + b == b;
    } else {
      assert (a + b)[0] == a[0] && (a + b)[1..] == a[1..] + b;
      MergeConcat(a[1..], b, attrs[a[0].token.key := TokenValue(a[0].token)]);
    }
  }

  lemma {:induction false} MergeLinesMergesAll(lines: seq<AttributeLine>, attrs: Row)
    ensures MergeLines(lines, attrs) == Merge(AllPlaced(lines), attrs)
    decreases |lines|
  {
    if lines != [] {
      MergeConcat(lines[0].tokens, AllPlaced(lines[1..]), attrs);
      MergeLinesMergesAll(lines[1..], Merge(lines[0].tokens, attrs));
    }
  }

  // A row maps a key to the value of its last token in the block, whatever the
  // line it stands on, else to what the message line itself gives.
  lemma RowLooksUpLastToken(b: Block, key: string)
    ensures var last, head := LastValue(AllPlaced(b.lines), key), Attributes(b.header, true);
            Looks(RowOf(b), key, if last.Some? then last else if key in head then Some(head[key]) else None)
  {
    MergeLinesMergesAll(b.lines, Attributes(b.header, true));
    MergeLooksUpLast(AllPlaced(b.lines), Attributes(b.header, true), key);
  }

  // Parsing undoes printing: the reply printed for a list of blocks parses to
  // the blocks' rows, in order; blocks without attributes give no row.
  lemma ParseUndoesPrint(blocks: seq<Block>)
    requires LegalReply(blocks)
    ensures Rows(ReplyLines(PrintReply(blocks))) == RowsOf(blocks)
  {
    ReplyLinesAreStable(blocks);
    StableLinesSurvive(ReplyOf(blocks));
    StableLinesHaveNoBreak(ReplyOf(blocks));
    SplitUnlines(ReplyOf(blocks));
    ReadReplyLines(blocks);
  }
}
