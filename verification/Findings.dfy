// Findings: the diagnosis results that matchers produce.
module Findings {
  import opened Wrappers

  datatype Severity = Critical | High | Medium | Low | Info

  // ---- Recommended commands ----

  datatype ChannelQuery = AuthRules | StatusAll | StatusCurrent | StatusUnits | Definition | Connection | Ping

  datatype QueueQuery =
    | DepthAndAge | DepthAndLimit | Depth | Backout | MaxLength | PutGet | Attributes
    | QueueStatus | Authority

  datatype ClusterQuery = Members | MemberTypes

  datatype FixedQuery =
    | ConnectionAuth | AuthInfo | ManagerStatus | ListenerStatus | FailedChannels
    | FullQueues | BackoutQueues | ChannelLengths | ManagerLength | Repositories

  // The last three are shell commands; all others are MQSC.
  datatype Command =
    | OnChannel(channelQuery: ChannelQuery, name: string)
    | OnQueue(queueQuery: QueueQuery, name: string)
    | OnCluster(clusterQuery: ClusterQuery, name: string)
    | OnManager(fixedQuery: FixedQuery)
    | DrbdStatus(resource: string)
    | RdqmStatus
    | CrmMon

  // ---- Findings ----

  // A finding without its prose, links and remediation texts.
  datatype Finding = Finding(
    issue: string,
    severity: Severity,
    reasonCode: Option<int>,
    amqCode: Option<string>,
    fixSteps: seq<Command>,
    verifyCommands: seq<Command>)

  // The decimal digits of a number.
  function Decimal(n: int): string
    decreases n < 0, if n < 0 then -n else n
  {
    if n < 0 then "-" + Decimal(-n)
    else if n < 10 then [Digit(n)]
    else Decimal(n / 10) + [Digit(n % 10)]
  }

  function Digit(n: int): char
    requires 0 <= n < 10
  {
    '0' + n as char
  }
}
