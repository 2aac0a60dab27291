// The text of the commands that findings recommend.
module CommandTexts {
  import opened Findings

  // What command texts are made of.
  datatype Piece =
    | Display | Probe | Chlauth | Chstatus | Channel | Queue | Qstatus | Authrec | Clusqmgr | Qmgr
    | Authinfo | Qmstatus | Lsstatus | Quote | Unquote | Open | Close | Any | Where | ClusterEq
    | Lstmsgrc | NotZero | Depths | Thresholds | Positive | All | Current | Runcheck | Curluwid | Lstluwid
    | Conname | Xmitq | Sslciph | Curdepth | Maxdepth | Msgage | Bothresh | Boqname | Maxmsgl | Put
    | Get | Objtype | Profile | Qmtype | Connauth | Repos | Reposnl

  function PieceText(p: Piece): string {
    match p
    case Display => "DISPLAY "
    case Probe => "PING "
    case Chlauth => "CHLAUTH"
    case Chstatus => "CHSTATUS"
    case Channel => "CHANNEL"
    case Queue => "QUEUE"
    case Qstatus => "QSTATUS"
    case Authrec => "AUTHREC"
    case Clusqmgr => "CLUSQMGR"
    case Qmgr => "QMGR"
    case Authinfo => "AUTHINFO"
    case Qmstatus => "QMSTATUS"
    case Lsstatus => "LSSTATUS"
    case Quote => "('"
    case Unquote => "')"
    case Open => "("
    case Close => ")"
    case Any => "(*)"
    case Where => " WHERE("
    case ClusterEq => "CLUSTER EQ "
    case Lstmsgrc => "LSTMSGRC"
    case NotZero => " NE 0"
    case Depths => "CURDEPTH"
    case Thresholds => "BOTHRESH"
    case Positive => " GT 0"
    case All => " ALL"
    case Current => " CURRENT"
    case Runcheck => " MATCH(RUNCHECK)"
    case Curluwid => " CURLUWID"
    case Lstluwid => " LSTLUWID"
    case Conname => " CONNAME"
    case Xmitq => " XMITQ"
    case Sslciph => " SSLCIPH"
    case Curdepth => " CURDEPTH"
    case Maxdepth => " MAXDEPTH"
    case Msgage => " MSGAGE"
    case Bothresh => " BOTHRESH"
    case Boqname => " BOQNAME"
    case Maxmsgl => " MAXMSGL"
    case Put => " PUT"
    case Get => " GET"
    case Objtype => " OBJTYPE("
    case Profile => " PROFILE"
    case Qmtype => " QMTYPE"
    case Connauth => " CONNAUTH"
    case Repos => " REPOS"
    case Reposnl => " REPOSNL"
  }

  function Spell(ps: seq<Piece>): string {
    if ps == [] then [] else PieceText(ps[0]) + Spell(ps[1..])
  }

  // The pieces before and behind the name.
  datatype Template = Template(before: seq<Piece>, after: seq<Piece>)

  function ChannelTemplate(q: ChannelQuery): Template {
    match q
    case AuthRules => Template([Display, Chlauth, Quote], [Unquote, Runcheck, All])
    case StatusAll => Template([Display, Chstatus, Quote], [Unquote, All])
    case StatusCurrent => Template([Display, Chstatus, Quote], [Unquote, Current])
    case StatusUnits => Template([Display, Chstatus, Quote], [Unquote, All, Curluwid, Lstluwid])
    case Definition => Template([Display, Channel, Quote], [Unquote, All])
    case Connection => Template([Display, Channel, Quote], [Unquote, Conname, Xmitq, Sslciph])
    case Ping => Template([Probe, Channel, Open], [Close])
  }

  function QueueTemplate(q: QueueQuery): Template {
    match q
    case DepthAndAge => Template([Display, Queue, Quote], [Unquote, Curdepth, Maxdepth, Msgage])
    case DepthAndLimit => Template([Display, Queue, Quote], [Unquote, Curdepth, Maxdepth])
    case Depth => Template([Display, Queue, Quote], [Unquote, Curdepth])
    case Backout => Template([Display, Queue, Quote], [Unquote, Bothresh, Boqname])
    case MaxLength => Template([Display, Queue, Quote], [Unquote, Maxmsgl])
    case PutGet => Template([Display, Queue, Quote], [Unquote, Put, Get])
    case Attributes => Template([Display, Queue, Quote], [Unquote, All])
    case QueueStatus => Template([Display, Qstatus, Quote], [Unquote, All])
    case Authority => Template([Display, Authrec, Objtype, Queue, Close, Profile, Quote], [Unquote])
  }

  function ClusterTemplate(q: ClusterQuery): Template {
    match q
    case Members => Template([Display, Clusqmgr, Any, Where, ClusterEq], [Close])
    case MemberTypes => Template([Display, Clusqmgr, Any, Where, ClusterEq], [Close, Qmtype])
  }

  function FixedPieces(q: FixedQuery): seq<Piece> {
    match q
    case ConnectionAuth => [Display, Qmgr, Connauth]
    case AuthInfo => [Display, Authinfo, Any, All]
    case ManagerStatus => [Display, Qmstatus]
    case ListenerStatus => [Display, Lsstatus, Any, All]
    case FailedChannels => [Display, Chstatus, Any, Where, Lstmsgrc, NotZero, Close]
    case FullQueues => [Display, Queue, Any, Where, Depths, Positive, Close]
    case BackoutQueues => [Display, Queue, Any, Where, Thresholds, Positive, Close]
    case ChannelLengths => [Display, Channel, Any, Maxmsgl]
    case ManagerLength => [Display, Qmgr, Maxmsgl]
    case Repositories => [Display, Qmgr, Repos, Reposnl]
  }

  // The template of an MQSC command and the name to fill in.
  function TemplateOf(c: Command): (Template, string)
    requires IsMqsc(c)
  {
    match c
    case OnChannel(q, name) => (ChannelTemplate(q), name)
    case OnQueue(q, name) => (QueueTemplate(q), name)
    case OnCluster(q, name) => (ClusterTemplate(q), name)
    case OnManager(q) => (Template(FixedPieces(q), []), "")
  }

  predicate IsMqsc(c: Command) {
    c.OnChannel? || c.OnQueue? || c.OnCluster? || c.OnManager?
  }

  function Fill(t: Template, name: string): string {
    Spell(t.before) + (name + Spell(t.after))
  }

  function Written(c: Command): string {
    match c
    case DrbdStatus(resource) => "drbdadm status " + resource
    case RdqmStatus => "rdqmstatus"
    case CrmMon => "crm_mon -1"
    case _ => Fill(TemplateOf(c).0, TemplateOf(c).1)
  }
}
