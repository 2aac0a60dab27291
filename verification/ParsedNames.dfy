// Names that come from a parsed reply, and the gate. The parser works line by
// line, and nothing that it takes from a line can contain a line boundary, so of
// the four characters that the gate forbids in the name of an object, CR and LF
// cannot come from a parsed reply, whatever the queue manager sends. Semicolon
// and NUL can: for a row of a parsed reply the recommended commands pass the
// gate exactly when the name has neither of them. That joins the parser, the
// channel matcher, the command templates and the gate.
module ParsedNames {
  import opened Wrappers
  import opened Text
  import opened MqscValue
  import opened MqscParser
  import opened Allowlist
  import Findings
  import Channels
  import Commands

  predicate ValuesHaveNoBreak(row: Row) {
    forall key <- row :: NoLineBreak(row[key])
  }

  lemma {:induction false} SplitLinesHaveNoBreak(s: string)
    ensures forall line <- SplitLines(s) :: NoLineBreak(line)
    decreases |s|
  {
    if s != [] {
      assert NoLineBreak(s[..LineLength(s)]);
      SplitLinesHaveNoBreak(s[FullLineLength(s)..]);
    }
  }

  lemma ValueHasNoBreak(t: string)
    requires NoLineBreak(t)
    ensures NoLineBreak(ValueOf(t))
  {
    match FindClose(t, 0) {
      case Some(p) => var i, j := StripTakesPart(t[..p]);
      case None => var i, j := StripTakesPart(t);
    }
  }

  lemma TailHasNoBreak(s: string, n: nat)
    requires NoLineBreak(s) && n <= |s|
    ensures NoLineBreak(s[n..])
  {
  }

  lemma {:induction false} AttributesHaveNoBreakFrom(line: string, i: nat, attrs: Row, pairsOnly: bool)
    requires NoLineBreak(line) && ValuesHaveNoBreak(attrs)
    ensures ValuesHaveNoBreak(AttributesAt(line, i, attrs, pairsOnly))
    decreases if i < |line| then |line| - i else 0
  {
    hide AttributesAt, NoLineBreak, ValuesHaveNoBreak, Put, ValueOf, ProseAt;
    if i >= |line| {
      AttributesEnd(line, i, attrs, pairsOnly);
    } else if IsSpace(line[i]) {
      StepOverSpace(line, i, attrs, pairsOnly);
      AttributesHaveNoBreakFrom(line, i + 1, attrs, pairsOnly);
    } else if ProseAt(line, i, pairsOnly) {
      StepOverProse(line, i, attrs, pairsOnly);
      PutHasNoBreak(attrs, "", "");
      if attrs != map[] || pairsOnly {
        AttributesHaveNoBreakFrom(line, i + WordLength(line[i..]), attrs, pairsOnly);
      }
    } else {
      var end := KeyEnd(line, i);
      if end < |line| && line[end] == '(' {
        var t := line[end + 1..];
        StepOverPair(line, i, attrs, pairsOnly);
        TailHasNoBreak(line, end + 1);
        ValueHasNoBreak(t);
        PutHasNoBreak(attrs, line[i..end], ValueOf(t));
        AttributesHaveNoBreakFrom(line, end + 1 + Consumed(t), Put(attrs, line[i..end], ValueOf(t)), pairsOnly);
      } else {
        StepOverKeyword(line, i, attrs, pairsOnly);
        PutHasNoBreak(attrs, line[i..end], "");
        AttributesHaveNoBreakFrom(line, end, Put(attrs, line[i..end], ""), pairsOnly);
      }
    }
  }

  lemma AttributesHaveNoBreak(line: string, pairsOnly: bool)
    requires NoLineBreak(line)
    ensures ValuesHaveNoBreak(Attributes(line, pairsOnly))
  {
    AttributesStart(line, pairsOnly);
    AttributesHaveNoBreakFrom(line, 0, map[], pairsOnly);
  }

  lemma PutHasNoBreak(attrs: Row, key: string, value: string)
    requires ValuesHaveNoBreak(attrs) && (NoLineBreak(value) || value == "")
    ensures ValuesHaveNoBreak(Put(attrs, key, value)) && ValuesHaveNoBreak(map[])
  {
    assert NoLineBreak(value);
  }

  lemma {:induction false} RowsHaveNoBreak(lines: seq<string>, current: Option<Row>)
    requires forall line <- lines :: NoLineBreak(line)
    requires current.Some? ==> ValuesHaveNoBreak(current.value)
    ensures forall row <- RowsFrom(lines, current) :: ValuesHaveNoBreak(row)
    decreases |lines|
  {
    if lines != [] {
      assert lines[0] in lines;
      AttributesHaveNoBreak(lines[0], true);
      AttributesHaveNoBreak(lines[0], false);
      hide NoLineBreak, IsMessageLine, Attributes;
      var next :=
        if IsMessageLine(lines[0]) then Some(Attributes(lines[0], true))
        else if current.None? then None
        else Some(current.value + Attributes(lines[0], false));
      RowsHaveNoBreak(lines[1..], next);
    }
  }

  lemma ParsedValuesHaveNoBreak(text: string, row: Row)
    requires row in Rows(ReplyLines(text))
    ensures ValuesHaveNoBreak(row)
  {
    SplitLinesHaveNoBreak(BreakBeforeIds(text, false));
    RowsHaveNoBreak(ReplyLines(text), None);
  }

  // For a channel row parsed from a reply, every recommended command passes the
  // gate exactly when the channel name has no semicolon and no NUL: line feeds
  // and carriage returns cannot occur in a parsed value.
  lemma ParsedChannelCommandsAllowedIff(text: string, row: Row, f: Findings.Finding)
    requires row in Rows(ReplyLines(text)) && f in Channels.RowFindings(row)
    ensures var name := Channels.ReadChannel(row).name;
            Commands.AllAllowed(f) <==> ';' !in name && '\0' !in name
  {
    var ch := Channels.ReadChannel(row);
    ParsedValuesHaveNoBreak(text, row);
    NameHasNoBreak(row);
    hide Channels.ReadChannel, Channels.FindingsOf, Commands.AllAllowed, Clean, NoLineBreak;
    CleanIffTwoAbsent(ch.name);
    Commands.ChannelCommandsAllowedIffClean(ch, f);
  }

  lemma NameHasNoBreak(row: Row)
    requires ValuesHaveNoBreak(row)
    ensures NoLineBreak(Channels.ReadChannel(row).name)
  {
    assert NoLineBreak("<unknown>");
    hide NoLineBreak;
  }

  lemma CleanIffTwoAbsent(name: string)
    requires NoLineBreak(name)
    ensures Clean(name) <==> ';' !in name && '\0' !in name
  {
    if Clean(name) {
      forall c | c in name ensures c != ';' && c != '\0' {
        var i :| 0 <= i < |name| && name[i] == c;
        assert !IsForbidden(name[i]);
      }
    }
  }
}
