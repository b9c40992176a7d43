/** A one-message channel whose operations take effect at once: what the protocol is meant to be. */
module AtomicChannel {
  import opened Protocol

  datatype Content = Open | Full(m: Message) | Shut

  /** `out` and `sent` are the results handed to the two callers so far. */
  datatype Abstract = Abstract(content: Content, tx: bool, rx: bool, out: seq<Outcome>, sent: Option<bool>)

  const Start := Abstract(Open, true, true, [], None)

  datatype Event =
    | Send(m: Message)
    | SendFails
    | CloseSender
    | Receive(last: bool)      // takes the message; `last` if the call consumes the receiver
    | ReceiveNothing(o: Outcome)
    | ReceiveClosed(last: bool)
    | Look(o: Outcome)
    | CloseReceiver

  predicate Can(a: Abstract, e: Event) {
    match e
    case Send(_) => a.tx && a.rx && a.content.Open?
    case SendFails => a.tx && !a.rx
    case CloseSender => a.tx && (a.rx ==> a.content.Open?)
    case Receive(_) => a.rx && a.content.Full?
    case ReceiveNothing(o) => a.rx && a.content.Open? && (o.Empty? || o.Timeout? || o.Pending?)
    case ReceiveClosed(_) => a.rx && a.content.Shut?
    case Look(o) => a.rx && (o == Closed(a.content.Shut?) || o == Has(a.content.Full?))
    case CloseReceiver => a.rx
  }

  function Do(a: Abstract, e: Event): Abstract
    requires Can(a, e)
  {
    match e
    case Send(m) => a.(content := Full(m), tx := false, sent := Some(true))
    case SendFails => a.(tx := false, sent := Some(false))
    case CloseSender => a.(content := if a.rx then Shut else a.content, tx := false)
    case Receive(last) => a.(content := Shut, out := a.out + [Got(a.content.m)], rx := !last)
    case ReceiveNothing(o) => a.(out := a.out + [o])
    case ReceiveClosed(last) => a.(out := a.out + [Disconnected], rx := !last)
    case Look(o) => a.(out := a.out + [o])
    case CloseReceiver => a.(content := if a.content.Full? then Shut else a.content, rx := false)
  }

  predicate Traces(a: Abstract, events: seq<Event>)
    decreases |events|
  {
    events == [] || (Can(a, events[0]) && Traces(Do(a, events[0]), events[1..]))
  }

  function Result(a: Abstract, events: seq<Event>): Abstract
    requires Traces(a, events)
    decreases |events|
  {
    if events == [] then a else Result(Do(a, events[0]), events[1..])
  }
}
