// The commands that findings recommend, and the gate. A command is a template
// with the name of an object filled in, and a template is made of words without
// any character that the gate forbids, so what decides is the name. Templates
// start with DISPLAY or PING CHANNEL, so the gate's verb check always holds for
// MQSC commands; the shell commands of the DRBD findings start with a word that
// the gate does not know.
module Commands {
  import opened Wrappers
  import opened Text
  import opened Seqs
  import opened Findings
  import opened CommandTexts
  import opened Allowlist
  import Channels
  import Dlq
  import Cluster
  import Drbd
  import DrbdFindings

  // ---- Commands that start like a read-only one ----

  predicate StartsReadOnly(command: string) {
    "DISPLAY " <= command || "PING CHANNEL(" <= command
  }

  predicate NoMark(s: string) {
    forall i | 0 <= i < |s| :: s[i] != '*' && s[i] != '-'
  }

  lemma {:induction false} FrontKeepsPrefix(p: string, rest: string)
    requires NoMark(p)
    ensures BeforeComment(p + rest) == p + BeforeComment(rest)
  {
    if p == [] {
      assert p + rest == rest;
    } else {
      assert (p + rest)[0] == p[0] && (p + rest)[1..] == p[1..] + rest;
      FrontKeepsPrefix(p[1..], rest);
    }
  }

  // A word, a space and the rest.
  lemma WordsAfter(w: string, rest: string)
    requires w != [] && forall i | 0 <= i < |w| :: !IsSpace(w[i])
    ensures Words(w + (" " + rest)) == [w] + Words(rest)
  {
    var s := w + (" " + rest);
    WordLengthConcat(w, " " + rest);
    assert s[..|w|] == w && s[|w|..] == " " + rest;
    assert (" " + rest)[1..] == rest;
  }

  lemma ChannelWord(rest: string)
    ensures var words := Words("CHANNEL(" + rest);
            words != [] && BeforeParenthesis(Upper(words[0])) == "CHANNEL"
  {
    var s := "CHANNEL(" + rest;
    WordLengthConcat("CHANNEL(", rest);
    var word := Words(s)[0];
    assert word == s[..8 + WordLength(rest)];
    var u := Upper(word);
    assert u[..8] == "CHANNEL(";
    BeforeParenthesisAt("CHANNEL", u);
  }

  lemma {:induction false} BeforeParenthesisAt(p: string, s: string)
    requires p + "(" <= s && forall i | 0 <= i < |p| :: p[i] != '('
    ensures BeforeParenthesis(s) == p
  {
    if p != [] {
      assert s[0] == p[0] && p[1..] + "(" <= s[1..];
      BeforeParenthesisAt(p[1..], s[1..]);
    }
  }

  predicate IsPlainWord(w: string) {
    w != [] && NoMark(w) && forall i | 0 <= i < |w| :: !IsSpace(w[i])
  }

  lemma FrontWordsAfter(w: string, rest: string)
    requires IsPlainWord(w)
    ensures Words(BeforeComment(w + (" " + rest))) == [w] + Words(BeforeComment(rest))
  {
    FrontKeepsPrefix(w + " ", rest);
    ConcatAssociates(w, " ", rest);
    ConcatAssociates(w, " ", BeforeComment(rest));
    hide BeforeComment, Words;
    WordsAfter(w, BeforeComment(rest));
  }

  lemma UpperVerbs()
    ensures Upper("DISPLAY") == "DISPLAY" && Upper("PING") == "PING"
  {
  }

  lemma DisplayIsReadOnly(rest: string)
    ensures IsReadOnly(Words(BeforeComment("DISPLAY" + (" " + rest))))
  {
    hide BeforeComment, Words, Upper;
    FrontWordsAfter("DISPLAY", rest);
    UpperVerbs();
  }

  lemma ChannelIsReadOnly(words: seq<string>)
    requires words != [] && BeforeParenthesis(Upper(words[0])) == "CHANNEL"
    ensures IsReadOnly(["PING"] + words)
  {
    hide Upper, BeforeParenthesis;
    UpperVerbs();
  }

  lemma ChannelFront(rest: string)
    ensures BeforeComment("CHANNEL(" + rest) == "CHANNEL(" + BeforeComment(rest)
  {
    FrontKeepsPrefix("CHANNEL(", rest);
  }

  lemma PingFront(rest: string)
    ensures Words(BeforeComment("PING" + (" " + rest))) == ["PING"] + Words(BeforeComment(rest))
  {
    FrontWordsAfter("PING", rest);
  }

  lemma PingIsReadOnly(rest: string)
    ensures IsReadOnly(Words(BeforeComment("PING" + (" " + ("CHANNEL(" + rest)))))
  {
    hide BeforeComment, Words, BeforeParenthesis, Upper, IsReadOnly;
    ChannelFront(rest);
    ChannelWord(BeforeComment(rest));
    PingFront("CHANNEL(" + rest);
    ChannelIsReadOnly(Words("CHANNEL(" + BeforeComment(rest)));
  }

  // Such a command is allowed exactly when no forbidden character is in it.
  lemma AllowedIffClean(command: string)
    requires StartsReadOnly(command)
    ensures Allowed(command) <==> Clean(command)
  {
    AllowedIffReadOnly(command);
    hide Words, BeforeComment, IsReadOnly, Allowed, Clean;
    if "DISPLAY " <= command {
      var rest := command[8..];
      DisplayIsReadOnly(rest);
      assert command == "DISPLAY" + (" " + rest);
    } else {
      var rest := command[13..];
      PingIsReadOnly(rest);
      assert command == "PING" + (" " + ("CHANNEL(" + rest));
    }
  }

  lemma CleanConcat(a: string, b: string)
    ensures Clean(a + b) <==> Clean(a) && Clean(b)
  {
    if Clean(a + b) {
      forall i | 0 <= i < |a| ensures !IsForbidden(a[i]) {
        assert a[i] == (a + b)[i];
      }
      forall i | 0 <= i < |b| ensures !IsForbidden(b[i]) {
        assert b[i] == (a + b)[|a| + i];
      }
    }
  }

  // ---- The templates ----

  predicate IsObject(p: Piece) {
    p in {Chlauth, Chstatus, Channel, Queue, Qstatus, Authrec, Clusqmgr, Qmgr, Authinfo, Qmstatus, Lsstatus}
  }

  predicate IsMark(p: Piece) {
    p in {Display, Probe, Quote, Unquote, Open, Close, Any, Where}
  }

  predicate IsCondition(p: Piece) {
    p in {ClusterEq, Lstmsgrc, NotZero, Depths, Thresholds, Positive, Objtype, Profile}
  }

  predicate IsChannelAttribute(p: Piece) {
    p in {All, Current, Runcheck, Curluwid, Lstluwid, Conname, Xmitq, Sslciph}
  }

  lemma ObjectIsClean(p: Piece)
    requires IsObject(p)
    ensures Clean(PieceText(p))
  {
  }

  lemma MarkIsClean(p: Piece)
    requires IsMark(p)
    ensures Clean(PieceText(p))
  {
  }

  lemma ConditionIsClean(p: Piece)
    requires IsCondition(p)
    ensures Clean(PieceText(p))
  {
  }

  lemma ChannelAttributeIsClean(p: Piece)
    requires IsChannelAttribute(p)
    ensures Clean(PieceText(p))
  {
  }

  lemma OtherAttributeIsClean(p: Piece)
    requires !IsObject(p) && !IsMark(p) && !IsCondition(p) && !IsChannelAttribute(p)
    ensures Clean(PieceText(p))
  {
  }

  lemma PieceIsClean(p: Piece)
    ensures Clean(PieceText(p))
  {
    hide PieceText, Clean, IsObject, IsMark, IsCondition, IsChannelAttribute;
    if IsObject(p) {
      ObjectIsClean(p);
    } else if IsMark(p) {
      MarkIsClean(p);
    } else if IsCondition(p) {
      ConditionIsClean(p);
    } else if IsChannelAttribute(p) {
      ChannelAttributeIsClean(p);
    } else {
      OtherAttributeIsClean(p);
    }
  }

  lemma {:induction false} SpelledIsClean(ps: seq<Piece>)
    ensures Clean(Spell(ps))
  {
    if ps != [] {
      PieceIsClean(ps[0]);
      SpelledIsClean(ps[1..]);
      hide PieceText;
      CleanConcat(PieceText(ps[0]), Spell(ps[1..]));
    }
  }

  // Every template starts with the word DISPLAY or with PING CHANNEL(.
  predicate StartsWell(ps: seq<Piece>) {
    ps != [] && (ps[0] == Display || (|ps| >= 3 && ps[0] == Probe && ps[1] == Channel && ps[2] == Open))
  }

  lemma TemplatesStartWell(c: Command)
    requires IsMqsc(c)
    ensures StartsWell(TemplateOf(c).0.before)
  {
  }

  lemma SpelledProbe(ps: seq<Piece>)
    requires StartsWell(ps) && ps[0] == Probe
    ensures "PING CHANNEL(" <= Spell(ps)
  {
    var more := ps[1..];
    assert more[0] == Channel && more[1..][0] == Open;
    assert Spell(more[1..]) == "(" + Spell(more[1..][1..]);
    assert Spell(more) == "CHANNEL" + Spell(more[1..]);
    assert Spell(ps) == "PING " + Spell(more);
  }

  lemma SpelledStartsReadOnly(ps: seq<Piece>, rest: string)
    requires StartsWell(ps)
    ensures StartsReadOnly(Spell(ps) + rest)
  {
    if ps[0] == Probe {
      SpelledProbe(ps);
      hide Spell;
    }
  }

  // The object name in a command.
  function NameIn(c: Command): string {
    if IsMqsc(c) then TemplateOf(c).1 else if c.DrbdStatus? then c.resource else ""
  }

  lemma OtherWordIsDenied(word: string, rest: string)
    requires IsPlainWord(word) && (word[0] in "rc" || (|word| > 1 && word[0] == 'd' && word[1] == 'r'))
    requires rest != [] ==> rest[0] == ' '
    ensures !Allowed(word + rest)
  {
    var command := word + rest;
    FrontKeepsPrefix(word, rest);
    var front := BeforeComment(rest);
    assert rest != [] ==> BeforeComment(rest)[0] == ' ';
    WordLengthConcat(word, front);
    assert BeforeComment(command)[..|word|] == word;
    assert Words(BeforeComment(command))[0] == word;
    assert Upper(word)[0] in "RC" || (Upper(word)[0] == 'D' && Upper(word)[1] == 'R');
    assert !IsReadOnly(Words(BeforeComment(command)));
    AllowedIffReadOnly(command);
  }

  lemma DrbdStatusIsDenied(resource: string)
    ensures !Allowed(Written(DrbdStatus(resource)))
  {
    hide Allowed;
    OtherWordIsDenied("drbdadm", " status " + resource);
    assert Written(DrbdStatus(resource)) == "drbdadm" + (" status " + resource);
  }

  lemma RdqmStatusIsDenied()
    ensures !Allowed(Written(RdqmStatus))
  {
    hide Allowed;
    OtherWordIsDenied("rdqmstatus", "");
    assert Written(RdqmStatus) == "rdqmstatus" + "";
  }

  lemma CrmMonIsDenied()
    ensures !Allowed(Written(CrmMon))
  {
    hide Allowed;
    OtherWordIsDenied("crm_mon", " -1");
    assert Written(CrmMon) == "crm_mon" + " -1";
  }

  lemma ShellIsDenied(c: Command)
    requires !IsMqsc(c)
    ensures !Allowed(Written(c))
  {
    hide Allowed, Written;
    match c {
      case DrbdStatus(resource) => DrbdStatusIsDenied(resource);
      case RdqmStatus => RdqmStatusIsDenied();
      case CrmMon => CrmMonIsDenied();
    }
  }

  // A command that a matcher recommends passes the gate exactly when it is MQSC
  // and the object name in it has no ; CR LF or NUL. The shell commands of the
  // DRBD findings never do.
  lemma CommandIsAllowedIff(c: Command)
    ensures Allowed(Written(c)) <==> IsMqsc(c) && Clean(NameIn(c))
  {
    if IsMqsc(c) {
      var (t, name) := TemplateOf(c);
      TemplatesStartWell(c);
      SpelledIsClean(t.before);
      SpelledIsClean(t.after);
      SpelledStartsReadOnly(t.before, name + Spell(t.after));
      CleanConcat(Spell(t.before), name + Spell(t.after));
      CleanConcat(name, Spell(t.after));
      hide Allowed, Clean, Spell, TemplateOf, StartsReadOnly;
      AllowedIffClean(Fill(t, name));
    } else {
      ShellIsDenied(c);
    }
  }

  // ---- What the matchers recommend ----

  predicate AreAllowed(commands: seq<Command>) {
    forall i | 0 <= i < |commands| :: Allowed(Written(commands[i]))
  }

  predicate AllAllowed(f: Finding) {
    AreAllowed(f.fixSteps) && AreAllowed(f.verifyCommands)
  }

  // The commands name at most the given object, the first of them included.
  predicate OnlyOn(commands: seq<Command>, name: string) {
    && commands != []
    && (forall i | 0 <= i < |commands| :: IsMqsc(commands[i]) && NameIn(commands[i]) in {name, ""})
    && NameIn(commands[0]) == name
  }

  lemma AreAllowedIffNameIsClean(commands: seq<Command>, name: string)
    requires OnlyOn(commands, name)
    ensures AreAllowed(commands) <==> Clean(name)
  {
    forall i | 0 <= i < |commands| ensures Allowed(Written(commands[i])) <==> Clean(NameIn(commands[i])) {
      CommandIsAllowedIff(commands[i]);
    }
    hide Allowed, Written;
    assert AreAllowed(commands) ==> Allowed(Written(commands[0]));
  }

  lemma AllAllowedIffNameIsClean(f: Finding, name: string)
    requires OnlyOn(f.fixSteps, name) && OnlyOn(f.verifyCommands, name)
    ensures AllAllowed(f) <==> Clean(name)
  {
    AreAllowedIffNameIsClean(f.fixSteps, name);
    AreAllowedIffNameIsClean(f.verifyCommands, name);
  }

  // A channel finding's commands are all allowed exactly when the channel name
  // has no forbidden character.
  lemma ChannelCommandsAllowedIffClean(ch: Channels.Channel, f: Finding)
    requires f in Channels.FindingsOf(ch)
    ensures AllAllowed(f) <==> Clean(ch.name)
  {
    AllAllowedIffNameIsClean(f, ch.name);
  }

  lemma LogCommandsAllowed(code: string)
    ensures AllAllowed(Channels.LogFinding(code))
  {
    AllAllowedIffNameIsClean(Channels.LogFinding(code), "");
  }

  lemma DepthCommandsAllowedIffClean(queue: string, depth: int)
    ensures AllAllowed(Dlq.DepthFinding(queue, depth)) <==> Clean(queue)
  {
    AllAllowedIffNameIsClean(Dlq.DepthFinding(queue, depth), queue);
  }

  lemma BackoutCommandsAllowedIffClean(queue: string, n: nat)
    ensures AllAllowed(Dlq.BackoutFinding(queue, n)) <==> Clean(queue)
  {
    AllAllowedIffNameIsClean(Dlq.BackoutFinding(queue, n), queue);
  }

  lemma CleanDestination(top: string)
    ensures Clean(if top == [] then "<destination>" else top) <==> Clean(top)
  {
  }

  lemma FixStepsAllowedIffClean(reason: int, top: string)
    ensures AreAllowed(Dlq.FixSteps(reason, top)) <==> Clean(top)
  {
    CleanDestination(top);
    hide Clean, AreAllowed;
    AreAllowedIffNameIsClean(Dlq.FixSteps(reason, top), if top == [] then "<destination>" else top);
  }

  lemma ReasonCommands(queue: string, reason: int, group: seq<Dlq.Header>)
    requires group != []
    ensures var f := Dlq.ReasonFinding(queue, reason, group);
            && f.fixSteps == Dlq.FixSteps(reason, Dlq.MostCommon(Map(group, Dlq.DestOf)))
            && f.verifyCommands == [OnQueue(Depth, queue)]
            && (AllAllowed(f) <==> AreAllowed(f.fixSteps) && AreAllowed(f.verifyCommands))
  {
    hide AreAllowed, Dlq.FixSteps, Dlq.MostCommon;
  }

  // A reason finding names the queue and its most common destination.
  lemma ReasonCommandsAllowedIffClean(queue: string, reason: int, group: seq<Dlq.Header>)
    requires group != []
    ensures AllAllowed(Dlq.ReasonFinding(queue, reason, group))
       <==> Clean(queue) && Clean(Dlq.MostCommon(Map(group, Dlq.DestOf)))
  {
    var top := Dlq.MostCommon(Map(group, Dlq.DestOf));
    AreAllowedIffNameIsClean([OnQueue(Depth, queue)], queue);
    hide *;
    FixStepsAllowedIffClean(reason, top);
    ReasonCommands(queue, reason, group);
  }

  lemma ClusterCommandsAllowedIffClean(cluster: string)
    ensures AllAllowed(Cluster.NoRepository(cluster)) <==> Clean(cluster)
  {
    AllAllowedIffNameIsClean(Cluster.NoRepository(cluster), cluster);
  }

  // No command of a DRBD finding passes the gate, whatever the resource is called.
  lemma DrbdCommandsAreNeverAllowed(raw: string, f: Finding, c: Command)
    requires f in DrbdFindings.MarkedReport(DrbdFindings.Peers(raw)) || f in DrbdFindings.UnmarkedReport(DrbdFindings.Peers(raw))
    requires c in f.fixSteps || c in f.verifyCommands
    ensures !Allowed(Written(c)) && !AllAllowed(f)
  {
    var peers := DrbdFindings.Peers(raw);
    hide Allowed, Written;
    MarkedIsShell(peers, f);
    UnmarkedIsShell(peers, f);
    CommandIsAllowedIff(c);
    CommandIsAllowedIff(f.fixSteps[0]);
  }

  predicate IsShell(f: Finding) {
    && f.fixSteps != []
    && (forall c <- f.fixSteps :: !IsMqsc(c))
    && (forall c <- f.verifyCommands :: !IsMqsc(c))
  }

  lemma MarkedIsShell(peers: seq<Drbd.Entry>, f: Finding)
    ensures f in DrbdFindings.MarkedReport(peers) ==> IsShell(f)
  {
    var flagged := if peers == [] then [Drbd.UNATTRIBUTED] else peers;
    if f in DrbdFindings.MarkedReport(peers) {
      var i :| 0 <= i < |flagged| && Map(flagged, DrbdFindings.SplitBrainFinding)[i] == f;
      assert f == DrbdFindings.SplitBrainFinding(flagged[i]);
    }
  }

  lemma {:induction false} DisksAreShell(peers: seq<Drbd.Entry>, f: Finding)
    ensures f in FlatMap(peers, DrbdFindings.BadDisksOf) ==> IsShell(f)
  {
    if peers != [] {
      DisksAreShell(peers[1..], f);
    }
  }

  lemma UnmarkedIsShell(peers: seq<Drbd.Entry>, f: Finding)
    ensures f in DrbdFindings.UnmarkedReport(peers) ==> IsShell(f)
  {
    DisksAreShell(peers, f);
    var odd := Filter(peers, DrbdFindings.NotConnected);
    if f in Map(odd, DrbdFindings.ConnectionFinding) {
      var i :| 0 <= i < |odd| && Map(odd, DrbdFindings.ConnectionFinding)[i] == f;
      assert f == DrbdFindings.ConnectionFinding(odd[i]);
    }
    hide FlatMap, Filter;
  }
}
