// Lines of the merged log, still with MAC addresses.
module Log {
  import opened Prelude
  import opened Trace

  type Mac = string

  // One line of the merged log.
  datatype LogEvent = LogEvent(time: int, mac1: Mac, what: Kind, mac2: Mac)

  // mac_to_num applied to both ends; None is a KeyError.
  function Resolve(macToNum: map<Mac, Node>, e: LogEvent): Option<Event>
  {
    if e.mac1 in macToNum && e.mac2 in macToNum
    then Some(Event(e.time, macToNum[e.mac1], e.what, macToNum[e.mac2])) else None
  }

  function ResolveAll(macToNum: map<Mac, Node>, log: seq<LogEvent>): Option<seq<Event>>
  {
    if log == [] then Some([])
    else
      var front, last := ResolveAll(macToNum, log[..|log| - 1]), Resolve(macToNum, log[|log| - 1]);
      if front.Some? && last.Some? then Some(front.value + [last.value]) else None
  }

  lemma ResolveSnoc(macToNum: map<Mac, Node>, log: seq<LogEvent>, e: LogEvent)
    ensures ResolveAll(macToNum, log + [e])
            == if ResolveAll(macToNum, log).Some? && Resolve(macToNum, e).Some?
               then Some(ResolveAll(macToNum, log).value + [Resolve(macToNum, e).value]) else None
  {
  }
}
