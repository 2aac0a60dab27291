// The recommended commands, written out. Templates are lists of words, which is
// what the proofs about the gate use; here the words of each command are put
// together again, so that a reader can compare them with what is reported. The
// texts are left as the words they are made of, with the name of the object
// where it is filled in: channel names stand in quotes except in PING CHANNEL,
// cluster names stand without quotes, and the commands for the whole queue
// manager have no name at all. The last lemma has the shell commands of the DRBD
// findings, which are no templates.
module ReportTexts {
  import opened Findings
  import opened CommandTexts

  // ---- Spelling a few pieces ----

  lemma SpellTwo(a: Piece, b: Piece)
    ensures Spell([]) == [] && Spell([a]) == PieceText(a)
    ensures Spell([a, b]) == PieceText(a) + PieceText(b)
  {
    hide PieceText;
    assert [a, b][1..] == [b] && [a][1..] == [] && [b][1..] == [];
  }

  lemma SpellThree(a: Piece, b: Piece, c: Piece)
    ensures Spell([a, b, c]) == PieceText(a) + (PieceText(b) + PieceText(c))
  {
    hide PieceText;
    assert [a, b, c][1..] == [b, c];
    SpellTwo(b, c);
  }

  lemma SpellFour(a: Piece, b: Piece, c: Piece, d: Piece)
    ensures Spell([a, b, c, d]) == PieceText(a) + (PieceText(b) + (PieceText(c) + PieceText(d)))
  {
    hide PieceText;
    assert [a, b, c, d][1..] == [b, c, d];
    SpellThree(b, c, d);
  }

  lemma SpellFive(a: Piece, b: Piece, c: Piece, d: Piece, e: Piece)
    ensures Spell([a, b, c, d, e])
         == PieceText(a) + (PieceText(b) + (PieceText(c) + (PieceText(d) + PieceText(e))))
  {
    hide PieceText;
    assert [a, b, c, d, e][1..] == [b, c, d, e];
    SpellFour(b, c, d, e);
  }

  lemma SpellSeven(a: Piece, b: Piece, c: Piece, d: Piece, e: Piece, f: Piece, g: Piece)
    ensures Spell([a, b, c, d, e, f, g])
         == PieceText(a) + (PieceText(b) + (PieceText(c) + (PieceText(d) + (PieceText(e) + (PieceText(f) + PieceText(g))))))
  {
    hide PieceText;
    assert [a, b, c, d, e, f, g][1..] == [b, c, d, e, f, g] && [b, c, d, e, f, g][1..] == [c, d, e, f, g];
    SpellFive(c, d, e, f, g);
  }

  // ---- The pieces ----

  lemma DisplayPieces()
    ensures PieceText(Display) == "DISPLAY " && PieceText(Quote) == "('"
    ensures PieceText(Unquote) == "')" && PieceText(All) == " ALL"
  {
  }

  lemma ChannelPieces()
    ensures PieceText(Probe) == "PING " && PieceText(Chlauth) == "CHLAUTH"
    ensures PieceText(Chstatus) == "CHSTATUS" && PieceText(Channel) == "CHANNEL"
    ensures PieceText(Open) == "(" && PieceText(Close) == ")"
  {
  }

  lemma ChannelAttributes()
    ensures PieceText(Current) == " CURRENT" && PieceText(Runcheck) == " MATCH(RUNCHECK)"
    ensures PieceText(Curluwid) == " CURLUWID" && PieceText(Lstluwid) == " LSTLUWID"
  {
  }

  lemma QueuePieces()
    ensures PieceText(Queue) == "QUEUE" && PieceText(Qstatus) == "QSTATUS"
    ensures PieceText(Authrec) == "AUTHREC" && PieceText(Objtype) == " OBJTYPE("
    ensures PieceText(Profile) == " PROFILE"
  {
  }

  lemma DepthAttributes()
    ensures PieceText(Curdepth) == " CURDEPTH" && PieceText(Maxdepth) == " MAXDEPTH"
    ensures PieceText(Msgage) == " MSGAGE"
  {
  }

  lemma BackoutAttributes()
    ensures PieceText(Bothresh) == " BOTHRESH" && PieceText(Boqname) == " BOQNAME"
  {
  }

  lemma LinkAttributes()
    ensures PieceText(Conname) == " CONNAME" && PieceText(Xmitq) == " XMITQ"
    ensures PieceText(Sslciph) == " SSLCIPH"
  {
  }

  lemma RepositoryAttributes()
    ensures PieceText(Connauth) == " CONNAUTH" && PieceText(Repos) == " REPOS"
    ensures PieceText(Reposnl) == " REPOSNL"
  {
  }

  lemma MessageAttributes()
    ensures PieceText(Maxmsgl) == " MAXMSGL" && PieceText(Put) == " PUT"
    ensures PieceText(Get) == " GET"
  {
  }

  lemma ManagerPieces()
    ensures PieceText(Qmgr) == "QMGR" && PieceText(Authinfo) == "AUTHINFO"
    ensures PieceText(Qmstatus) == "QMSTATUS" && PieceText(Lsstatus) == "LSSTATUS"
  {
  }

  lemma ClusterPieces()
    ensures PieceText(Clusqmgr) == "CLUSQMGR" && PieceText(Any) == "(*)"
    ensures PieceText(Where) == " WHERE(" && PieceText(ClusterEq) == "CLUSTER EQ "
    ensures PieceText(Qmtype) == " QMTYPE"
  {
  }

  lemma ConditionPieces()
    ensures PieceText(Lstmsgrc) == "LSTMSGRC" && PieceText(NotZero) == " NE 0"
    ensures PieceText(Depths) == "CURDEPTH" && PieceText(Thresholds) == "BOTHRESH"
    ensures PieceText(Positive) == " GT 0"
  {
  }

  // ---- The commands ----

  lemma ChannelStatusTexts(name: string)
    ensures Written(OnChannel(AuthRules, name))
         == ("DISPLAY " + ("CHLAUTH" + "('")) + (name + ("')" + (" MATCH(RUNCHECK)" + " ALL")))
    ensures Written(OnChannel(StatusAll, name))
         == ("DISPLAY " + ("CHSTATUS" + "('")) + (name + ("')" + " ALL"))
    ensures Written(OnChannel(StatusCurrent, name))
         == ("DISPLAY " + ("CHSTATUS" + "('")) + (name + ("')" + " CURRENT"))
    ensures Written(OnChannel(StatusUnits, name))
         == ("DISPLAY " + ("CHSTATUS" + "('")) + (name + ("')" + (" ALL" + (" CURLUWID" + " LSTLUWID"))))
  {
    hide PieceText;
    DisplayPieces();
    ChannelPieces();
    ChannelAttributes();
    SpellThree(Display, Chlauth, Quote);
    SpellThree(Unquote, Runcheck, All);
    SpellThree(Display, Chstatus, Quote);
    SpellTwo(Unquote, All);
    SpellTwo(Unquote, Current);
    SpellFour(Unquote, All, Curluwid, Lstluwid);
    hide Spell;
  }

  lemma ChannelTexts(name: string)
    ensures Written(OnChannel(Definition, name))
         == ("DISPLAY " + ("CHANNEL" + "('")) + (name + ("')" + " ALL"))
    ensures Written(OnChannel(Connection, name))
         == ("DISPLAY " + ("CHANNEL" + "('")) + (name + ("')" + (" CONNAME" + (" XMITQ" + " SSLCIPH"))))
    ensures Written(OnChannel(Ping, name))
         == ("PING " + ("CHANNEL" + "(")) + (name + ")")
  {
    hide PieceText;
    DisplayPieces();
    ChannelPieces();
    LinkAttributes();
    SpellThree(Display, Channel, Quote);
    SpellTwo(Unquote, All);
    SpellFour(Unquote, Conname, Xmitq, Sslciph);
    SpellThree(Probe, Channel, Open);
    SpellTwo(Close, Close);
    hide Spell;
  }

  lemma QueueDepthTexts(name: string)
    ensures Written(OnQueue(DepthAndAge, name))
         == ("DISPLAY " + ("QUEUE" + "('")) + (name + ("')" + (" CURDEPTH" + (" MAXDEPTH" + " MSGAGE"))))
    ensures Written(OnQueue(DepthAndLimit, name))
         == ("DISPLAY " + ("QUEUE" + "('")) + (name + ("')" + (" CURDEPTH" + " MAXDEPTH")))
    ensures Written(OnQueue(Depth, name))
         == ("DISPLAY " + ("QUEUE" + "('")) + (name + ("')" + " CURDEPTH"))
    ensures Written(OnQueue(Backout, name))
         == ("DISPLAY " + ("QUEUE" + "('")) + (name + ("')" + (" BOTHRESH" + " BOQNAME")))
  {
    hide PieceText;
    DisplayPieces();
    QueuePieces();
    DepthAttributes();
    BackoutAttributes();
    SpellThree(Display, Queue, Quote);
    SpellFour(Unquote, Curdepth, Maxdepth, Msgage);
    SpellThree(Unquote, Curdepth, Maxdepth);
    SpellTwo(Unquote, Curdepth);
    SpellThree(Unquote, Bothresh, Boqname);
    hide Spell;
  }

  lemma QueueTexts(name: string)
    ensures Written(OnQueue(MaxLength, name))
         == ("DISPLAY " + ("QUEUE" + "('")) + (name + ("')" + " MAXMSGL"))
    ensures Written(OnQueue(PutGet, name))
         == ("DISPLAY " + ("QUEUE" + "('")) + (name + ("')" + (" PUT" + " GET")))
    ensures Written(OnQueue(Attributes, name))
         == ("DISPLAY " + ("QUEUE" + "('")) + (name + ("')" + " ALL"))
    ensures Written(OnQueue(QueueStatus, name))
         == ("DISPLAY " + ("QSTATUS" + "('")) + (name + ("')" + " ALL"))
    ensures Written(OnQueue(Authority, name))
         == ("DISPLAY " + ("AUTHREC" + (" OBJTYPE(" + ("QUEUE" + (")" + (" PROFILE" + "('")))))) + (name + "')")
  {
    hide PieceText;
    DisplayPieces();
    QueuePieces();
    MessageAttributes();
    ChannelPieces();
    SpellThree(Display, Queue, Quote);
    SpellTwo(Unquote, Maxmsgl);
    SpellThree(Unquote, Put, Get);
    SpellTwo(Unquote, All);
    SpellThree(Display, Qstatus, Quote);
    SpellSeven(Display, Authrec, Objtype, Queue, Close, Profile, Quote);
    SpellTwo(Unquote, Unquote);
    hide Spell;
  }

  lemma ClusterTexts(name: string)
    ensures Written(OnCluster(Findings.Members, name))
         == ("DISPLAY " + ("CLUSQMGR" + ("(*)" + (" WHERE(" + "CLUSTER EQ ")))) + (name + ")")
    ensures Written(OnCluster(Findings.MemberTypes, name))
         == ("DISPLAY " + ("CLUSQMGR" + ("(*)" + (" WHERE(" + "CLUSTER EQ ")))) + (name + (")" + " QMTYPE"))
  {
    hide PieceText;
    DisplayPieces();
    ClusterPieces();
    ChannelPieces();
    SpellFive(Display, Clusqmgr, Any, Where, ClusterEq);
    SpellTwo(Close, Close);
    SpellTwo(Close, Qmtype);
    hide Spell;
  }

  lemma ManagerTexts()
    ensures Written(OnManager(ConnectionAuth))
         == "DISPLAY " + ("QMGR" + " CONNAUTH")
    ensures Written(OnManager(AuthInfo))
         == "DISPLAY " + ("AUTHINFO" + ("(*)" + " ALL"))
    ensures Written(OnManager(ManagerStatus))
         == "DISPLAY " + "QMSTATUS"
    ensures Written(OnManager(ListenerStatus))
         == "DISPLAY " + ("LSSTATUS" + ("(*)" + " ALL"))
    ensures Written(OnManager(ChannelLengths))
         == "DISPLAY " + ("CHANNEL" + ("(*)" + " MAXMSGL"))
    ensures Written(OnManager(ManagerLength))
         == "DISPLAY " + ("QMGR" + " MAXMSGL")
    ensures Written(OnManager(Repositories))
         == "DISPLAY " + ("QMGR" + (" REPOS" + " REPOSNL"))
  {
    hide PieceText;
    DisplayPieces();
    ManagerPieces();
    RepositoryAttributes();
    ClusterPieces();
    ChannelPieces();
    MessageAttributes();
    SpellThree(Display, Qmgr, Connauth);
    SpellFour(Display, Authinfo, Any, All);
    SpellTwo(Display, Qmstatus);
    SpellFour(Display, Lsstatus, Any, All);
    SpellFour(Display, Channel, Any, Maxmsgl);
    SpellThree(Display, Qmgr, Maxmsgl);
    SpellFour(Display, Qmgr, Repos, Reposnl);
    SpellTwo(Display, Display);
    hide Spell;
  }

  lemma ConditionTexts()
    ensures Written(OnManager(FailedChannels))
         == "DISPLAY " + ("CHSTATUS" + ("(*)" + (" WHERE(" + ("LSTMSGRC" + (" NE 0" + ")")))))
    ensures Written(OnManager(FullQueues))
         == "DISPLAY " + ("QUEUE" + ("(*)" + (" WHERE(" + ("CURDEPTH" + (" GT 0" + ")")))))
    ensures Written(OnManager(BackoutQueues))
         == "DISPLAY " + ("QUEUE" + ("(*)" + (" WHERE(" + ("BOTHRESH" + (" GT 0" + ")")))))
  {
    hide PieceText;
    DisplayPieces();
    ChannelPieces();
    ClusterPieces();
    ConditionPieces();
    QueuePieces();
    SpellSeven(Display, Chstatus, Any, Where, Lstmsgrc, NotZero, Close);
    SpellSeven(Display, Queue, Any, Where, Depths, Positive, Close);
    SpellSeven(Display, Queue, Any, Where, Thresholds, Positive, Close);
    SpellTwo(Display, Display);
    hide Spell;
  }

  lemma ShellTexts(resource: string)
    ensures Written(DrbdStatus(resource)) == "drbdadm status " + resource
    ensures Written(RdqmStatus) == "rdqmstatus" && Written(CrmMon) == "crm_mon -1"
  {
  }
}
