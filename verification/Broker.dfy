/** The progress broker as a function of its state: bounded buffers, subscribers and expiry of finished applications. */
module Broker {
  datatype Event = Event(name: string, isTerminal: bool)

  /** The three dictionaries; Q is the type of subscriber queues. */
  datatype State<!Q> = State(
    buffers: map<string, seq<Event>>, subscribers: map<string, set<Q>>, terminalAt: map<string, int>)

  datatype Limits = Limits(maxEvents: nat, ttl: int)

  function SubscribersOf<Q>(s: State<Q>, app: string): set<Q> {
    if app in s.subscribers then s.subscribers[app] else {}
  }

  /** Its last event was terminal at least ttl ago and nobody listens. */
  predicate Expired<Q>(limits: Limits, s: State<Q>, now: int, app: string) {
    app in s.terminalAt && now - s.terminalAt[app] >= limits.ttl && SubscribersOf(s, app) == {}
  }

  function ExpiredApps<Q>(limits: Limits, s: State<Q>, now: int): set<string> {
    set app | app in s.terminalAt && Expired(limits, s, now, app)
  }

  function Cleaned<Q>(limits: Limits, s: State<Q>, now: int): State<Q> {
    var gone := ExpiredApps(limits, s, now);
    s.(buffers := s.buffers - gone, terminalAt := s.terminalAt - gone)
  }

  /** The last n elements, or all there are: what `deque(maxlen=n)` keeps. */
  function Newest<T>(n: nat, events: seq<T>): seq<T> {
    if |events| <= n then events else events[|events| - n..]
  }

  function BufferOf<Q>(s: State<Q>, app: string): seq<Event> {
    if app in s.buffers then s.buffers[app] else []
  }

  function Published<Q>(limits: Limits, s: State<Q>, app: string, event: Event, now: int): State<Q> {
    var c := Cleaned(limits, s, now);
    c.(buffers := c.buffers[app := Newest(limits.maxEvents, BufferOf(c, app) + [event])],
       terminalAt := if event.isTerminal then c.terminalAt[app := now] else c.terminalAt - {app})
  }

  function Subscribed<Q>(limits: Limits, s: State<Q>, app: string, queue: Q, now: int): State<Q> {
    var c := Cleaned(limits, s, now);
    c.(subscribers := c.subscribers[app := SubscribersOf(c, app) + {queue}])
  }

  function Unsubscribed<Q>(limits: Limits, s: State<Q>, app: string, queue: Q, now: int): State<Q> {
    Cleaned(limits, LeftSubscribed(s, app, queue), now)
  }

  /** A set that becomes empty is dropped. */
  function LeftSubscribed<Q>(s: State<Q>, app: string, queue: Q): State<Q> {
    var left := SubscribersOf(s, app) - {queue};
    if SubscribersOf(s, app) == {} then s
    else if left == {} then s.(subscribers := s.subscribers - {app})
    else s.(subscribers := s.subscribers[app := left])
  }
}
