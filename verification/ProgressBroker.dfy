/** The broker object. Each method is one atomic step: nothing suspends between taking the lock and the last put. */
module ProgressBroker {
  import opened Broker

  lemma DropOneMore<T>(m: map<string, T>, removed: set<string>, app: string)
    ensures (m - removed) - {app} == m - (removed + {app})
  {
  }

  class EventQueue {
    var items: seq<Event>

    constructor ()
      ensures items == []
    {
      items := [];
    }

    method PutNowait(event: Event)
      modifies this
      ensures items == old(items) + [event]
    {
      items := items + [event];
    }

    /** The consumer's side: the oldest event, if there is one. */
    method Get() returns (event: Event)
      requires items != []
      modifies this
      ensures [event] + items == old(items)
    {
      event := items[0];
      items := items[1..];
    }
  }

  class ProgressBroker {
    const limits: Limits
    var buffers: map<string, seq<Event>>
    var subscribers: map<string, set<EventQueue>>
    var terminalAt: map<string, int>

    constructor (maxEvents: nat, ttl: int)
      ensures limits == Limits(maxEvents, ttl)
      ensures Snapshot() == State(map[], map[], map[])
    {
      limits := Limits(maxEvents, ttl);
      buffers, subscribers, terminalAt := map[], map[], map[];
    }

    function Snapshot(): State<EventQueue>
      reads this
    {
      State(buffers, subscribers, terminalAt)
    }

    method FindExpired(now: int) returns (expired: set<string>)
      ensures expired == ExpiredApps(limits, Snapshot(), now)
    {
      expired := {};
      var pending := terminalAt.Keys;
      while pending != {}
        invariant pending <= terminalAt.Keys
        invariant forall app :: app in expired <==>
                    app in terminalAt && app !in pending && Expired(limits, Snapshot(), now, app)
        decreases |pending|
      {
        var app :| app in pending;
        pending := pending - {app};
        if now - terminalAt[app] >= limits.ttl && (app !in subscribers || subscribers[app] == {}) {
          expired := expired + {app};
        }
      }
    }

    method Drop(doomed: set<string>)
      modifies this
      ensures buffers == old(buffers) - doomed && terminalAt == old(terminalAt) - doomed
      ensures subscribers == old(subscribers)
    {
      var pending := doomed;
      ghost var removed: set<string> := {};
      while pending != {}
        invariant removed + pending == doomed && subscribers == old(subscribers)
        invariant buffers == old(buffers) - removed && terminalAt == old(terminalAt) - removed
        decreases |pending|
      {
        var app :| app in pending;
        pending := pending - {app};
        buffers := buffers - {app};
        terminalAt := terminalAt - {app};
        DropOneMore(old(buffers), removed, app);
        DropOneMore(old(terminalAt), removed, app);
        removed := removed + {app};
      }
    }

    method CleanupExpired(now: int)
      modifies this
      ensures Snapshot() == Cleaned(limits, old(Snapshot()), now)
    {
      var expired := FindExpired(now);
      Drop(expired);
    }

    method Publish(app: string, event: Event, now: int)
      modifies this, SubscribersOf(Snapshot(), app)
      ensures Snapshot() == Published(limits, old(Snapshot()), app, event, now)
      ensures forall q :: q in old(SubscribersOf(Snapshot(), app)) ==> q.items == old(q.items) + [event]
    {
      CleanupExpired(now);
      var buffer := (if app in buffers then buffers[app] else []) + [event];
      if |buffer| > limits.maxEvents {
        buffer := buffer[|buffer| - limits.maxEvents..];
      }
      buffers := buffers[app := buffer];
      if event.isTerminal {
        terminalAt := terminalAt[app := now];
      } else {
        terminalAt := terminalAt - {app};
      }
      assert Snapshot() == Published(limits, old(Snapshot()), app, event, now);
      ghost var snapshot := Snapshot();
      var queues := if app in subscribers then subscribers[app] else {};
      var pending := queues;
      while pending != {}
        invariant pending <= queues && Snapshot() == snapshot
        invariant forall q :: q in queues - pending ==> q.items == old(q.items) + [event]
        invariant forall q :: q in pending ==> q.items == old(q.items)
        modifies queues
        decreases |pending|
      {
        var queue :| queue in pending;
        pending := pending - {queue};
        queue.PutNowait(event);
      }
    }

    method Subscribe(app: string, now: int) returns (queue: EventQueue, history: seq<Event>)
      modifies this
      ensures fresh(queue) && queue.items == []
      ensures Snapshot() == Subscribed(limits, old(Snapshot()), app, queue, now)
      ensures history == BufferOf(Snapshot(), app)
    {
      queue := new EventQueue();
      CleanupExpired(now);
      if app !in subscribers {
        subscribers := subscribers[app := {}];
      }
      subscribers := subscribers[app := subscribers[app] + {queue}];
      history := if app in buffers then buffers[app] else [];
    }

    method Unsubscribe(app: string, queue: EventQueue, now: int)
      modifies this
      ensures Snapshot() == Unsubscribed(limits, old(Snapshot()), app, queue, now)
    {
      if app in subscribers && subscribers[app] != {} {
        subscribers := subscribers[app := subscribers[app] - {queue}];
        if subscribers[app] == {} {
          subscribers := subscribers - {app};
        }
      }
      assert subscribers == LeftSubscribed(old(Snapshot()), app, queue).subscribers;
      CleanupExpired(now);
    }
  }
}
