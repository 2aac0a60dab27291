// Channel status rows and the error log to findings.
module Channels {
  import opened Wrappers
  import opened Text
  import opened Seqs
  import opened Findings
  import opened MqscParser

  // ---- Reading a row ----

  // row.get(first) or row.get(second) or other: an empty value counts as absent.
  function FieldOf(row: Row, first: string, second: string, other: string): string {
    if first in row && row[first] != [] then row[first]
    else if second in row && row[second] != [] then row[second]
    else other
  }

  // int(): digits with single underscores between them.
  function Digits(s: string, n: int, afterDigit: bool): Option<int> {
    if s == [] then if afterDigit then Some(n) else None
    else if IsDigit(s[0]) then Digits(s[1..], 10 * n + (s[0] - '0') as int, true)
    else if s[0] == '_' && afterDigit then Digits(s[1..], n, false)
    else None
  }

  function IntOf(s: string): Option<int> {
    var t := Strip(s);
    if t != [] && t[0] == '-' then
      var r := Digits(t[1..], 0, false);
      if r.Some? then Some(-r.value) else None
    else if t != [] && t[0] == '+' then Digits(t[1..], 0, false)
    else Digits(t, 0, false)
  }

  datatype Channel = Channel(name: string, status: string, reason: int, inDoubt: bool)

  function ReadChannel(row: Row): Channel {
    var status := FieldOf(row, "STATUS", "CHSTATUS", "");
    Channel(FieldOf(row, "CHANNEL", "CHLNAME", "<unknown>"),
            status,
            IntOf(FieldOf(row, "REASON", "LSTMSGRC", "0")).UnwrapOr(0),
            Upper(status) == "INDOUBT" || ("INDOUBT" in row && Upper(row["INDOUBT"]) == "YES"))
  }

  const BAD_STATUS := {"RETRYING", "STOPPED", "PAUSED", "INDOUBT", "INACTIVE_FAILED"}

  predicate BadStatus(status: string) {
    Upper(status) in BAD_STATUS
  }

  // ---- The findings ----

  function NotAuthorized(ch: Channel): Finding {
    Finding("Channel " + ch.name + " returned MQRC 2035 (NOT_AUTHORIZED)", High, Some(2035), None,
            [OnChannel(AuthRules, ch.name), OnChannel(StatusAll, ch.name),
             OnManager(ConnectionAuth), OnManager(AuthInfo)],
            [OnChannel(StatusCurrent, ch.name), OnManager(ManagerStatus)])
  }

  function ConnectionError(ch: Channel): Finding {
    Finding("Channel " + ch.name + " connection error (reason " + Decimal(ch.reason) + ")",
            High, Some(ch.reason), Some("AMQ9202"),
            [OnChannel(StatusAll, ch.name), OnChannel(Connection, ch.name),
             OnManager(ListenerStatus), OnChannel(Ping, ch.name)],
            [OnChannel(StatusCurrent, ch.name)])
  }

  function InDoubt(ch: Channel): Finding {
    Finding("Channel " + ch.name + " is in-doubt", Critical, None, None,
            [OnChannel(StatusUnits, ch.name)], [OnChannel(StatusCurrent, ch.name)])
  }

  function GenericBadStatus(ch: Channel): Finding {
    Finding("Channel " + ch.name + " status is " + ch.status, Medium, None, None,
            [OnChannel(StatusAll, ch.name), OnChannel(Definition, ch.name)],
            [OnChannel(StatusCurrent, ch.name)])
  }

  function LogFinding(code: string): Finding {
    Finding("Error log contains " + code, High, None, Some(code),
            [OnManager(FailedChannels), OnManager(ListenerStatus)], [OnManager(ManagerStatus)])
  }

  // The finding a channel gives rise to; the first matching row of this table.
  datatype Verdict = Unauthorized | Unconnected | Doubtful | Failing | Healthy

  function Judge(ch: Channel): Verdict {
    if ch.reason == 2035 then Unauthorized
    else if ch.reason in {2009, 2059} then Unconnected
    else if ch.inDoubt then Doubtful
    else if BadStatus(ch.status) then Failing
    else Healthy
  }

  function FindingsOf(ch: Channel): seq<Finding> {
    match Judge(ch)
    case Unauthorized => [NotAuthorized(ch)]
    case Unconnected => [ConnectionError(ch)]
    case Doubtful => [InDoubt(ch)]
    case Failing => [GenericBadStatus(ch)]
    case Healthy => []
  }

  function RowFindings(row: Row): seq<Finding> {
    FindingsOf(ReadChannel(row))
  }

  // ---- AMQ codes in the log ----

  predicate WordBoundary(s: string, i: nat)
    requires i <= |s|
  {
    (i > 0 && IsWordChar(s[i - 1])) != (i < |s| && IsWordChar(s[i]))
  }

  // AMQ and four digits at position i.
  predicate AmqNumberAt(s: string, i: nat) {
    && i + 7 <= |s|
    && s[i] == 'A' && s[i + 1] == 'M' && s[i + 2] == 'Q'
    && IsDigit(s[i + 3]) && IsDigit(s[i + 4]) && IsDigit(s[i + 5]) && IsDigit(s[i + 6])
  }

  // The code matched at position i, with its severity letter if it has one.
  function CodeAt(s: string, i: nat): Option<string>
    requires i < |s|
  {
    if !AmqNumberAt(s, i) || !WordBoundary(s, i) then None
    else if i + 8 <= |s| && IsUpper(s[i + 7]) && WordBoundary(s, i + 8) then Some(s[i..i + 8])
    else if WordBoundary(s, i + 7) then Some(s[i..i + 7])
    else None
  }

  // rstrip("EWIS")
  function StripSeverity(code: string): string {
    if code != [] && code[|code| - 1] in "EWIS" then StripSeverity(code[..|code| - 1]) else code
  }

  function AmqCodes(log: string): set<string> {
    set i: nat | i < |log| && CodeAt(log, i).Some? :: StripSeverity(CodeAt(log, i).value)
  }

  // ---- The matcher ----

  // An order in which the documented codes of a log may be visited.
  ghost predicate Enumerates(order: seq<string>, codes: set<string>, documented: string -> bool) {
    Distinct(order) && forall c :: c in order <==> c in codes && documented(c)
  }

  lemma FirstMatchWins(ch: Channel)
    ensures !BadStatus(ch.status) && ch.reason == 0 && !ch.inDoubt ==> FindingsOf(ch) == []
    ensures ch.reason == 2035 ==> FindingsOf(ch) == [NotAuthorized(ch)]
    ensures ch.reason in {2009, 2059} ==> FindingsOf(ch) == [ConnectionError(ch)]
    ensures ch.reason !in {2009, 2035, 2059} ==>
      FindingsOf(ch) == if ch.inDoubt then [InDoubt(ch)]
                        else if BadStatus(ch.status) then [GenericBadStatus(ch)]
                        else []
  {
  }

  lemma NothingEnumerated(documented: string -> bool)
    ensures Enumerates([], {}, documented) && Map([], LogFinding) == []
  {
  }

  lemma VisitNext(order: seq<string>, seen: set<string>, code: string, documented: string -> bool)
    requires Enumerates(order, seen, documented) && code !in seen
    ensures Enumerates(if documented(code) then order + [code] else order, seen + {code}, documented)
  {
  }

  method MatchChannelRows(rows: seq<Row>) returns (findings: seq<Finding>)
    ensures findings == FlatMap(rows, RowFindings)
  {
    findings := [];
    for i := 0 to |rows|
      invariant findings == FlatMap(rows[..i], RowFindings)
    {
      FlatMapStep(rows, i, RowFindings);
      var ch := ReadChannel(rows[i]);
      FirstMatchWins(ch);
      hide FindingsOf, ReadChannel, BadStatus, NotAuthorized, ConnectionError, InDoubt, GenericBadStatus;
      if !BadStatus(ch.status) && ch.reason == 0 && !ch.inDoubt {
        continue;
      }
      if ch.reason == 2035 {
        findings := findings + [NotAuthorized(ch)];
        continue;
      }
      if ch.reason in {2009, 2059} {
        findings := findings + [ConnectionError(ch)];
        continue;
      }
      if ch.inDoubt {
        findings := findings + [InDoubt(ch)];
        continue;
      }
      if BadStatus(ch.status) {
        findings := findings + [GenericBadStatus(ch)];
      }
    }
    assert rows[..|rows|] == rows;
  }

  // The codes come out of a set, so in any order.
  method MatchChannelFailures(rows: seq<Row>, log: string, documented: string -> bool)
    returns (findings: seq<Finding>)
    ensures exists order ::
      && Enumerates(order, AmqCodes(log), documented)
      && findings == FlatMap(rows, RowFindings) + Map(order, LogFinding)
  {
    NothingEnumerated(documented);
    hide *;
    findings := MatchChannelRows(rows);
    ghost var order: seq<string> := [];
    ghost var fromRows := findings;
    var codes := AmqCodes(log);
    assert AmqCodes(log) - codes == {};
    while codes != {}
      invariant codes <= AmqCodes(log)
      invariant Enumerates(order, AmqCodes(log) - codes, documented)
      invariant findings == fromRows + Map(order, LogFinding)
      decreases codes
    {
      var code :| code in codes;
      VisitNext(order, AmqCodes(log) - codes, code, documented);
      assert AmqCodes(log) - codes + {code} == AmqCodes(log) - (codes - {code});
      codes := codes - {code};
      if !documented(code) {
        continue;
      }
      MapStep(order, code, LogFinding);
      findings := findings + [LogFinding(code)];
      order := order + [code];
    }
    assert AmqCodes(log) - codes == AmqCodes(log);
  }

  // ---- What is reported ----

  // The first of two columns that is there and not empty.
  lemma RowIsRead(row: Row)
    ensures var ch := ReadChannel(row);
            && ch.name == (if "CHANNEL" in row && row["CHANNEL"] != "" then row["CHANNEL"]
                           else if "CHLNAME" in row && row["CHLNAME"] != "" then row["CHLNAME"] else "<unknown>")
            && ch.status == (if "STATUS" in row && row["STATUS"] != "" then row["STATUS"]
                             else if "CHSTATUS" in row && row["CHSTATUS"] != "" then row["CHSTATUS"] else "")
            && (ch.inDoubt <==>
                  Upper(ch.status) == "INDOUBT" || ("INDOUBT" in row && Upper(row["INDOUBT"]) == "YES"))
  {
    hide IntOf;
  }

  lemma ReasonIsRead(row: Row)
    ensures var text := if "REASON" in row && row["REASON"] != "" then row["REASON"]
                        else if "LSTMSGRC" in row && row["LSTMSGRC"] != "" then row["LSTMSGRC"] else "0";
            ReadChannel(row).reason == if IntOf(text).Some? then IntOf(text).value else 0
  {
    hide IntOf;
  }

  predicate IsBadStatus(status: string) {
    || Upper(status) == "RETRYING" || Upper(status) == "STOPPED" || Upper(status) == "PAUSED"
    || Upper(status) == "INDOUBT" || Upper(status) == "INACTIVE_FAILED"
  }

  // What a row is reported for, with which severity and codes: authorisation and
  // connection errors are HIGH and go before a channel in doubt, which is
  // CRITICAL; any other bad status is MEDIUM.
  lemma ReportTells(row: Row)
    ensures var ch, findings := ReadChannel(row), RowFindings(row);
            var coded := ch.reason == 2035 || ch.reason == 2009 || ch.reason == 2059;
            && |findings| == (if coded || ch.inDoubt || IsBadStatus(ch.status) then 1 else 0)
            && (findings != [] ==>
                  && findings[0].severity == (if coded then High else if ch.inDoubt then Critical else Medium)
                  && findings[0].reasonCode == (if coded then Some(ch.reason) else None)
                  && findings[0].amqCode == (if coded && ch.reason != 2035 then Some("AMQ9202") else None))
  {
    hide ReadChannel;
  }

  // The commands of a row's finding.
  lemma ReportAdvises(row: Row)
    requires RowFindings(row) != []
    ensures var ch, f := ReadChannel(row), RowFindings(row)[0];
            && f.verifyCommands ==
                 [OnChannel(StatusCurrent, ch.name)] + (if ch.reason == 2035 then [OnManager(ManagerStatus)] else [])
            && f.fixSteps ==
                 if ch.reason == 2035 then
                   [OnChannel(AuthRules, ch.name), OnChannel(StatusAll, ch.name),
                    OnManager(ConnectionAuth), OnManager(AuthInfo)]
                 else if ch.reason == 2009 || ch.reason == 2059 then
                   [OnChannel(StatusAll, ch.name), OnChannel(Connection, ch.name),
                    OnManager(ListenerStatus), OnChannel(Ping, ch.name)]
                 else if ch.inDoubt then [OnChannel(StatusUnits, ch.name)]
                 else [OnChannel(StatusAll, ch.name), OnChannel(Definition, ch.name)]
  {
    hide ReadChannel, BadStatus;
  }

  // What a row's finding says.
  lemma ReportSays(row: Row)
    requires RowFindings(row) != []
    ensures var ch, f := ReadChannel(row), RowFindings(row)[0];
            f.issue == "Channel " + ch.name +
              if ch.reason == 2035 then " returned MQRC 2035 (NOT_AUTHORIZED)"
              else if ch.reason == 2009 || ch.reason == 2059 then
                " connection error (reason " + Decimal(ch.reason) + ")"
              else if ch.inDoubt then " is in-doubt"
              else " status is " + ch.status
  {
    hide ReadChannel, BadStatus, Decimal;
  }

  lemma LogReportTells(code: string)
    ensures var f := LogFinding(code);
            && f.severity == High && f.reasonCode == None && f.amqCode == Some(code)
            && f.issue == "Error log contains " + code
            && f.fixSteps == [OnManager(FailedChannels), OnManager(ListenerStatus)]
            && f.verifyCommands == [OnManager(ManagerStatus)]
  {
  }

  // ---- Reason codes are read as they are written ----

  lemma {:induction false} DigitsReadDecimal(n: nat, rest: string, afterDigit: bool)
    ensures Digits(Decimal(n) + rest, 0, afterDigit) == Digits(rest, n, true)
  {
    if n < 10 {
      assert Decimal(n) + rest == [Digit(n)] + rest;
      assert ([Digit(n)] + rest)[1..] == rest;
    } else {
      var last := [Digit(n % 10)] + rest;
      assert Decimal(n) + rest == Decimal(n / 10) + last;
      assert last[1..] == rest;
      DigitsReadDecimal(n / 10, last, afterDigit);
    }
  }

  lemma {:induction false} DecimalIsDigits(n: nat)
    ensures Decimal(n) != [] && forall i | 0 <= i < |Decimal(n)| :: IsDigit(Decimal(n)[i])
  {
    if n >= 10 {
      DecimalIsDigits(n / 10);
    }
  }

  // Decimal notation, with a plus sign or without.
  function Signed(n: int, plus: bool): string {
    if plus && n >= 0 then "+" + Decimal(n) else Decimal(n)
  }

  // int() undoes the decimal notation, signed or not and with white space around it.
  lemma IntReadsDecimal(before: string, n: int, plus: bool, after: string)
    requires forall i | 0 <= i < |before| :: IsSpace(before[i])
    requires forall i | 0 <= i < |after| :: IsSpace(after[i])
    ensures IntOf(before + (Signed(n, plus) + after)) == Some(n)
  {
    var m, s := if n < 0 then -n else n, Signed(n, plus);
    DecimalIsDigits(m);
    DigitsReadDecimal(m, [], false);
    assert Decimal(m) + [] == Decimal(m);
    if n < 0 {
      assert Decimal(n) == "-" + Decimal(m);
    }
    assert s[0] == '-' || s[0] == '+' ==> s[1..] == Decimal(m);
    assert s[|s| - 1] == Decimal(m)[|Decimal(m)| - 1];
    hide Decimal, Digits;
    StripTakesTheMiddle(before, s, after);
  }

  // Numbers are written without leading zeros.
  lemma {:induction false} DecimalIsShort(n: int)
    requires n > 0
    ensures '1' <= Decimal(n)[0] <= '9'
  {
    if n >= 10 {
      DecimalIsShort(n / 10);
    }
  }

  // ---- The codes of a log ----

  // The n characters at i match the pattern: AMQ and four digits, with or
  // without one more capital letter, as a word of its own.
  predicate MatchesAt(log: string, i: nat, n: nat) {
    && (n == 7 || n == 8)
    && i + n <= |log| && AmqNumberAt(log, i)
    && (n == 8 ==> IsUpper(log[i + 7]))
    && WordBoundary(log, i) && WordBoundary(log, i + n)
  }

  // What is left of a match without a severity letter.
  function CodeOf(log: string, i: nat, n: nat): string
    requires MatchesAt(log, i, n)
  {
    if n == 8 && log[i + 7] !in "EWIS" then log[i..i + 8] else log[i..i + 7]
  }

  lemma OneMatchAt(log: string, i: nat, n: nat)
    requires i < |log|
    ensures MatchesAt(log, i, n) <==> CodeAt(log, i).Some? && |CodeAt(log, i).value| == n
    ensures MatchesAt(log, i, n) ==> CodeAt(log, i) == Some(log[i..i + n])
  {
  }

  lemma StripsToCode(log: string, i: nat, n: nat)
    requires MatchesAt(log, i, n)
    ensures StripSeverity(log[i..i + n]) == CodeOf(log, i, n)
  {
    var number := log[i..i + 7];
    assert number[6] == log[i + 6];
    assert StripSeverity(number) == number;
    if n == 8 {
      assert log[i..i + 8][..7] == number && log[i..i + 8][7] == log[i + 7];
    }
  }

  // The codes of a log are exactly what its matches leave without their
  // severity letter.
  lemma CodesAreTheMatches(log: string, code: string)
    ensures code in AmqCodes(log) <==> exists i: nat, n: nat | MatchesAt(log, i, n) :: code == CodeOf(log, i, n)
  {
    if code in AmqCodes(log) {
      var i: nat :| i < |log| && CodeAt(log, i).Some? && code == StripSeverity(CodeAt(log, i).value);
      var n := |CodeAt(log, i).value|;
      OneMatchAt(log, i, n);
      StripsToCode(log, i, n);
    }
    if i: nat, n: nat :| MatchesAt(log, i, n) && code == CodeOf(log, i, n) {
      OneMatchAt(log, i, n);
      StripsToCode(log, i, n);
    }
  }

  // The pattern, told by its characters: AMQ, four digits and perhaps a capital,
  // with no letter, digit or underscore on either side.
  lemma MatchesIff(log: string, i: nat, n: nat)
    ensures MatchesAt(log, i, n) <==>
      && (n == 7 || n == 8) && i + n <= |log|
      && log[i] == 'A' && log[i + 1] == 'M' && log[i + 2] == 'Q'
      && (forall k | i + 3 <= k < i + 7 :: '0' <= log[k] <= '9')
      && (n == 8 ==> 'A' <= log[i + 7] <= 'Z')
      && (i > 0 ==> !IsWordChar(log[i - 1]))
      && (i + n < |log| ==> !IsWordChar(log[i + n]))
  {
    if i + 7 <= |log| && forall k | i + 3 <= k < i + 7 :: '0' <= log[k] <= '9' {
      assert '0' <= log[i + 3] <= '9' && '0' <= log[i + 4] <= '9' && '0' <= log[i + 5] <= '9' && '0' <= log[i + 6] <= '9';
    }
  }

  // ---- What int() takes ----

  lemma {:induction false} OtherCharacterEndsDigits(s: string, i: nat, n: int, afterDigit: bool)
    requires i < |s| && !IsDigit(s[i]) && s[i] != '_'
    ensures Digits(s, n, afterDigit) == None
    decreases |s|
  {
    if i > 0 {
      if IsDigit(s[0]) {
        OtherCharacterEndsDigits(s[1..], i - 1, 10 * n + (s[0] - '0') as int, true);
      } else if s[0] == '_' && afterDigit {
        OtherCharacterEndsDigits(s[1..], i - 1, n, false);
      }
    }
  }

  // Anything but digits, underscores and a leading sign makes a reason unreadable.
  lemma OtherTextIsNoInteger(s: string, i: nat)
    requires i < |Strip(s)| && !IsDigit(Strip(s)[i]) && Strip(s)[i] != '_'
    requires i == 0 ==> Strip(s)[0] != '-' && Strip(s)[0] != '+'
    ensures IntOf(s) == None
  {
    var t := Strip(s);
    hide Strip;
    if i == 0 {
      OtherCharacterEndsDigits(t, 0, 0, false);
    } else {
      OtherCharacterEndsDigits(t, i, 0, false);
      OtherCharacterEndsDigits(t[1..], i - 1, 0, false);
    }
  }

  // Underscores may stand between digits, and nowhere else.
  lemma {:induction false} UnderscoreIsIgnored(a: string, b: string, n: int, afterDigit: bool)
    requires a != [] ==> IsDigit(a[|a| - 1])
    requires a == [] ==> afterDigit
    ensures Digits(a + "_" + b, n, afterDigit)
         == if b != [] && IsDigit(b[0]) then Digits(a + b, n, afterDigit) else None
    decreases |a|
  {
    var s := a + "_" + b;
    if a == [] {
      assert s[0] == '_' && s[1..] == b && a + b == b;
    } else {
      assert s[0] == a[0] && s[1..] == a[1..] + "_" + b;
      assert (a + b)[0] == a[0] && (a + b)[1..] == a[1..] + b;
      if IsDigit(a[0]) {
        UnderscoreIsIgnored(a[1..], b, 10 * n + (a[0] - '0') as int, true);
      } else if a[0] == '_' && afterDigit {
        UnderscoreIsIgnored(a[1..], b, n, false);
      }
    }
  }
}
