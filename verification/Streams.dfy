/** Streams over the broker: histories spliced with live events, over every run of publishers and clients. */
module Streams {
  import opened Broker

  /** Where the event generator of a stream stands. */
  datatype Pc = InHistory(next: nat) | Live | Closing | Closed

  /** `received` is everything ever put on the queue, `waiting` what is still on it, `start` the index in the
      application's log at which the history begins, `gone` whether the client went away first. */
  datatype Stream = Stream(
    app: string, start: nat, history: seq<Event>, received: seq<Event>, waiting: seq<Event>,
    emitted: seq<Event>, pc: Pc, gone: bool)

  /** Besides the broker: all events ever published, those published since the last eviction (the buffer, had it no
      bound), and the time of the last publication. */
  datatype World<!Q> = World(
    broker: State<Q>, log: map<string, seq<Event>>, available: map<string, seq<Event>>,
    lastAt: map<string, int>, streams: map<Q, Stream>)

  datatype Op<Q> =
    | Publish(app: string, event: Event, now: int)
    | Open(queue: Q, app: string, now: int)
    | Pull(queue: Q)
    | Disconnect(queue: Q)
    | Close(queue: Q, now: int)

  function Empty<Q>(): World<Q> {
    World(State(map[], map[], map[]), map[], map[], map[], map[])
  }

  function Get(m: map<string, seq<Event>>, app: string): seq<Event> {
    if app in m then m[app] else []
  }

  function Segment(st: Stream): seq<Event> {
    st.history + st.received
  }

  /** `queue.put_nowait(event)`. */
  function Put(st: Stream, event: Event): Stream {
    st.(received := st.received + [event], waiting := st.waiting + [event])
  }

  /** One resumption of the event generator. Waiting on an empty queue yields only heartbeats. */
  function Pulled(st: Stream): Stream {
    match st.pc
    case InHistory(i) =>
      if i < |st.history|
      then st.(emitted := st.emitted + [st.history[i]],
               pc := if st.history[i].isTerminal then Closing else InHistory(i + 1))
      else st.(pc := Live)
    case Live =>
      if st.waiting == [] then st
      else st.(emitted := st.emitted + [st.waiting[0]], waiting := st.waiting[1..],
               pc := if st.waiting[0].isTerminal then Closing else Live)
    case _ => st
  }

  function Delivered<Q>(streams: map<Q, Stream>, listeners: set<Q>, event: Event): map<Q, Stream> {
    map q | q in streams :: if q in listeners then Put(streams[q], event) else streams[q]
  }

  function Step<Q>(limits: Limits, w: World<Q>, op: Op<Q>): World<Q> {
    match op
    case Publish(app, event, now) =>
      var listeners := SubscribersOf(w.broker, app);
      var available := w.available - ExpiredApps(limits, w.broker, now);
      World(Published(limits, w.broker, app, event, now),
            w.log[app := Get(w.log, app) + [event]],
            available[app := Get(available, app) + [event]],
            w.lastAt[app := now],
            Delivered(w.streams, listeners, event))
    case Open(q, app, now) =>
      if q in w.streams then w
      else
        var broker := Subscribed(limits, w.broker, app, q, now);
        var history := BufferOf(broker, app);
        var length := |Get(w.log, app)|;
        w.(broker := broker, available := w.available - ExpiredApps(limits, w.broker, now),
           streams := w.streams[q := Stream(app, if |history| <= length then length - |history| else 0,
                                            history, [], [], [], InHistory(0), false)])
    case Pull(q) => if q in w.streams then w.(streams := w.streams[q := Pulled(w.streams[q])]) else w
    case Disconnect(q) =>
      if q in w.streams && w.streams[q].pc != Closed && w.streams[q].pc != Closing
      then w.(streams := w.streams[q := w.streams[q].(pc := Closing, gone := true)])
      else w
    case Close(q, now) =>
      if q in w.streams && w.streams[q].pc == Closing
      then
        var broker := Unsubscribed(limits, w.broker, w.streams[q].app, q, now);
        w.(broker := broker,
           available := map app | app in w.available && app in broker.buffers :: w.available[app],
           streams := w.streams[q := w.streams[q].(pc := Closed)])
      else w
  }

  function Run<Q>(limits: Limits, ops: seq<Op<Q>>): World<Q> {
    if ops == [] then Empty() else Step(limits, Run(limits, ops[..|ops| - 1]), ops[|ops| - 1])
  }

  // ---- Invariants -----------------------------------------------------------------------------

  predicate EndsTerminal(events: seq<Event>) {
    events != [] && events[|events| - 1].isTerminal
  }

  predicate IsSuffix(s: seq<Event>, t: seq<Event>) {
    |s| <= |t| && t[|t| - |s|..] == s
  }

  predicate NoTerminal(events: seq<Event>) {
    forall i :: 0 <= i < |events| ==> !events[i].isTerminal
  }

  /** A buffer is the newest part of what is available, and the expiry clock runs exactly for the applications
      whose last available event is terminal, from the moment it was published. */
  predicate AppInv<Q>(limits: Limits, w: World<Q>, app: string) {
    && (app in w.broker.buffers <==> app in w.available)
    && (app in w.available ==>
          && w.available[app] != [] && IsSuffix(w.available[app], Get(w.log, app))
          && w.broker.buffers[app] == Newest(limits.maxEvents, w.available[app]))
    && (app in w.broker.terminalAt <==> app in w.available && EndsTerminal(w.available[app]))
    && (app in w.broker.terminalAt ==> app in w.lastAt && w.broker.terminalAt[app] == w.lastAt[app])
  }

  /** No subscriber set is empty and every subscriber is a stream of that application. */
  predicate SubscribersInv<Q>(w: World<Q>, app: string) {
    app in w.broker.subscribers ==>
      && w.broker.subscribers[app] != {}
      && forall q :: q in w.broker.subscribers[app] ==> q in w.streams && w.streams[q].app == app
  }

  predicate StreamInv<Q>(w: World<Q>, q: Q, st: Stream) {
    && st.start + |Segment(st)| <= |Get(w.log, st.app)|
    && Get(w.log, st.app)[st.start..st.start + |Segment(st)|] == Segment(st)
    && (q in SubscribersOf(w.broker, st.app) <==> st.pc != Closed)
    && (st.pc != Closed ==> st.start + |Segment(st)| == |Get(w.log, st.app)|)
    && EmissionInv(st)
  }

  /** What has been emitted is an initial part of the segment and nothing in it but its last event is terminal. */
  predicate EmissionInv(st: Stream) {
    && |st.emitted| <= |Segment(st)| && st.emitted == Segment(st)[..|st.emitted|]
    && (st.emitted != [] ==> NoTerminal(st.emitted[..|st.emitted| - 1]))
    && match st.pc
       case InHistory(i) => i == |st.emitted| <= |st.history| && NoTerminal(st.emitted) && st.waiting == st.received
       case Live => st.emitted + st.waiting == Segment(st) && |st.history| <= |st.emitted| && NoTerminal(st.emitted)
       case _ => st.gone || EndsTerminal(st.emitted)
  }

  ghost predicate Inv<Q>(limits: Limits, w: World<Q>) {
    && (forall app :: AppInv(limits, w, app))
    && (forall app :: SubscribersInv(w, app))
    && forall q :: q in w.streams ==> StreamInv(w, q, w.streams[q])
  }

  /** One more event of the segment. */
  lemma OneMoreEmitted(segment: seq<Event>, emitted: seq<Event>, event: Event)
    requires |emitted| < |segment| && emitted == segment[..|emitted|] && event == segment[|emitted|]
    requires NoTerminal(emitted)
    ensures var more := emitted + [event];
            && more == segment[..|more|] && NoTerminal(more[..|more| - 1])
            && (if event.isTerminal then EndsTerminal(more) else NoTerminal(more))
  {
    assert (emitted + [event])[..|emitted|] == emitted;
  }

  lemma HistoryGoesOn(st: Stream)
    requires EmissionInv(st) && st.pc.InHistory? && st.pc.next < |st.history|
    ensures EmissionInv(Pulled(st))
  {
    OneMoreEmitted(Segment(st), st.emitted, st.history[st.pc.next]);
  }

  lemma HistoryEnds(st: Stream)
    requires EmissionInv(st) && st.pc.InHistory? && st.pc.next == |st.history|
    ensures EmissionInv(Pulled(st))
  {
    assert st.emitted == st.history;
  }

  lemma LiveGoesOn(st: Stream)
    requires EmissionInv(st) && st.pc.Live? && st.waiting != []
    ensures EmissionInv(Pulled(st))
  {
    assert st.waiting == [st.waiting[0]] + st.waiting[1..];
    assert Segment(st)[|st.emitted|] == st.waiting[0];
    OneMoreEmitted(Segment(st), st.emitted, st.waiting[0]);
    assert (st.emitted + [st.waiting[0]]) + st.waiting[1..] == st.emitted + st.waiting;
  }

  lemma EmissionGoesOn(st: Stream)
    requires EmissionInv(st)
    ensures EmissionInv(Pulled(st))
  {
    match st.pc
    case InHistory(i) =>
      if i < |st.history| {
        HistoryGoesOn(st);
      } else {
        HistoryEnds(st);
      }
    case Live =>
      if st.waiting != [] {
        LiveGoesOn(st);
      }
    case _ =>
  }

  lemma EmissionSurvivesPut(st: Stream, event: Event)
    requires EmissionInv(st)
    ensures EmissionInv(Put(st, event))
  {
    var st' := Put(st, event);
    assert Segment(st') == Segment(st) + [event];
    assert Segment(st')[..|st.emitted|] == st.emitted;
    if st.pc.Live? {
      assert st.emitted + (st.waiting + [event]) == Segment(st) + [event];
    }
  }

  lemma StreamReceives<Q>(w: World<Q>, w': World<Q>, q: Q, st: Stream, event: Event)
    requires StreamInv(w, q, st) && st.pc != Closed
    requires Get(w'.log, st.app) == Get(w.log, st.app) + [event] && w'.broker.subscribers == w.broker.subscribers
    ensures StreamInv(w', q, Put(st, event))
  {
    EmissionSurvivesPut(st, event);
    assert Segment(Put(st, event)) == Segment(st) + [event];
  }

  lemma StreamUnmoved<Q>(w: World<Q>, w': World<Q>, q: Q, st: Stream)
    requires StreamInv(w, q, st)
    requires Get(w.log, st.app) <= Get(w'.log, st.app)
    requires st.pc != Closed ==> Get(w'.log, st.app) == Get(w.log, st.app)
    requires q in SubscribersOf(w.broker, st.app) <==> q in SubscribersOf(w'.broker, st.app)
    ensures StreamInv(w', q, st)
  {
    var n := st.start + |Segment(st)|;
    assert Get(w'.log, st.app)[st.start..n] == Get(w.log, st.app)[st.start..n];
  }

  lemma NewestAppend(n: nat, events: seq<Event>, event: Event)
    ensures Newest(n, Newest(n, events) + [event]) == Newest(n, events + [event])
  {
  }

  /** Expiry keeps what an application has in step. */
  lemma CleanedApp<Q>(limits: Limits, w: World<Q>, c: World<Q>, now: int, app: string)
    requires AppInv(limits, w, app)
    requires c.broker.buffers == Cleaned(limits, w.broker, now).buffers
    requires c.broker.terminalAt == Cleaned(limits, w.broker, now).terminalAt
    requires c.available == w.available - ExpiredApps(limits, w.broker, now)
    requires c.log == w.log && c.lastAt == w.lastAt
    ensures AppInv(limits, c, app)
  {
  }

  /** The new event, on what expiry has left. */
  lemma AppendedApp<Q>(limits: Limits, c: World<Q>, w': World<Q>, app: string, event: Event, now: int)
    requires AppInv(limits, c, app)
    requires app in w'.available && w'.available[app] == Get(c.available, app) + [event]
    requires app in w'.broker.buffers
    requires w'.broker.buffers[app] == Newest(limits.maxEvents, BufferOf(c.broker, app) + [event])
    requires Get(w'.log, app) == Get(c.log, app) + [event]
    requires app in w'.lastAt && w'.lastAt[app] == now
    requires app in w'.broker.terminalAt <==> event.isTerminal
    requires event.isTerminal ==> w'.broker.terminalAt[app] == now
    ensures AppInv(limits, w', app)
  {
    NewestAppend(limits.maxEvents, Get(c.available, app), event);
    assert BufferOf(c.broker, app) == Newest(limits.maxEvents, Get(c.available, app));
  }

  lemma PublishedApp<Q>(limits: Limits, w: World<Q>, w': World<Q>, op: Op<Q>, app: string)
    requires op.Publish? && AppInv(limits, w, app)
    requires w'.broker == Published(limits, w.broker, op.app, op.event, op.now)
    requires var available := w.available - ExpiredApps(limits, w.broker, op.now);
             w'.available == available[op.app := Get(available, op.app) + [op.event]]
    requires w'.log == w.log[op.app := Get(w.log, op.app) + [op.event]] && w'.lastAt == w.lastAt[op.app := op.now]
    ensures AppInv(limits, w', app)
  {
    var c := w.(broker := Cleaned(limits, w.broker, op.now),
                available := w.available - ExpiredApps(limits, w.broker, op.now));
    CleanedApp(limits, w, c, op.now, app);
    if app == op.app {
      AppendedApp(limits, c, w', app, op.event, op.now);
    }
  }

  lemma SameSubscribers<Q>(w: World<Q>, w': World<Q>, app: string)
    requires SubscribersInv(w, app) && w'.broker.subscribers == w.broker.subscribers
    requires forall q :: q in w.streams ==> q in w'.streams && w'.streams[q].app == w.streams[q].app
    ensures SubscribersInv(w', app)
  {
  }

  lemma PublishedStream<Q>(w: World<Q>, w': World<Q>, q: Q, st: Stream, app: string, event: Event)
    requires StreamInv(w, q, st) && (q in SubscribersOf(w.broker, app) ==> st.app == app)
    requires w'.broker.subscribers == w.broker.subscribers && w'.log == w.log[app := Get(w.log, app) + [event]]
    ensures StreamInv(w', q, if q in SubscribersOf(w.broker, app) then Put(st, event) else st)
  {
    if q in SubscribersOf(w.broker, app) {
      StreamReceives(w, w', q, st, event);
    } else {
      StreamUnmoved(w, w', q, st);
    }
  }

  lemma PublishKeepsInv<Q>(limits: Limits, w: World<Q>, op: Op<Q>)
    requires Inv(limits, w) && op.Publish?
    ensures Inv(limits, Step(limits, w, op))
  {
    var w' := Step(limits, w, op);
    forall app ensures AppInv(limits, w', app) {
      PublishedApp(limits, w, w', op, app);
    }
    forall app ensures SubscribersInv(w', app) {
      SameSubscribers(w, w', app);
    }
    forall q | q in w'.streams ensures StreamInv(w', q, w'.streams[q]) {
      assert SubscribersInv(w, op.app);
      PublishedStream(w, w', q, w.streams[q], op.app, op.event);
    }
  }

  lemma OpenedStream<Q>(limits: Limits, w: World<Q>, q: Q, app: string, now: int)
    requires Inv(limits, w) && q !in w.streams
    ensures var w' := Step(limits, w, Open(q, app, now));
            && (forall a :: AppInv(limits, w', a)) && StreamInv(w', q, w'.streams[q])
            && w'.streams[q].history == Newest(limits.maxEvents, Get(w'.available, app))
  {
    var w' := Step(limits, w, Open(q, app, now));
    forall a ensures AppInv(limits, w', a) {
      CleanedApp(limits, w, w', now, a);
    }
    var st := w'.streams[q];
    assert Segment(st) == st.history;
    assert AppInv(limits, w', app);
    assert st.history == BufferOf(w'.broker, app);
    assert IsSuffix(st.history, Get(w.log, app));
  }

  predicate Opens<Q>(w: World<Q>, w': World<Q>, q: Q, app: string) {
    && w'.streams.Keys == w.streams.Keys + {q} && w'.streams[q].app == app
    && (forall p :: p in w.streams ==> w'.streams[p] == w.streams[p])
    && w'.log == w.log
    && w'.broker.subscribers == w.broker.subscribers[app := SubscribersOf(w.broker, app) + {q}]
  }

  lemma OneMoreSubscriber<Q>(w: World<Q>, w': World<Q>, q: Q, app: string, a: string)
    requires SubscribersInv(w, a) && Opens(w, w', q, app)
    ensures SubscribersInv(w', a)
  {
  }

  lemma OneMoreStream<Q>(limits: Limits, w: World<Q>, w': World<Q>, q: Q, app: string)
    requires Inv(limits, w) && q !in w.streams && Opens(w, w', q, app)
    requires (forall a :: AppInv(limits, w', a)) && StreamInv(w', q, w'.streams[q])
    ensures Inv(limits, w')
  {
    forall a ensures SubscribersInv(w', a) {
      OneMoreSubscriber(w, w', q, app, a);
    }
    forall p | p in w'.streams ensures StreamInv(w', p, w'.streams[p]) {
      if p != q {
        StreamUnmoved(w, w', p, w.streams[p]);
      }
    }
  }

  lemma OpenOpens<Q>(limits: Limits, w: World<Q>, q: Q, app: string, now: int)
    requires q !in w.streams
    ensures Opens(w, Step(limits, w, Open(q, app, now)), q, app)
  {
  }

  lemma OpenKeepsInv<Q>(limits: Limits, w: World<Q>, q: Q, app: string, now: int)
    requires Inv(limits, w) && q !in w.streams
    ensures Inv(limits, Step(limits, w, Open(q, app, now)))
  {
    OpenedStream(limits, w, q, app, now);
    OpenOpens(limits, w, q, app, now);
    OneMoreStream(limits, w, Step(limits, w, Open(q, app, now)), q, app);
  }

  lemma SameApp<Q>(limits: Limits, w: World<Q>, w': World<Q>, app: string)
    requires AppInv(limits, w, app) && w'.(streams := w.streams) == w
    ensures AppInv(limits, w', app)
  {
  }

  /** A stream that sends, or loses its client. */
  predicate Moves(st: Stream, st': Stream) {
    && st'.app == st.app && st'.start == st.start && Segment(st') == Segment(st)
    && (st'.pc == Closed <==> st.pc == Closed)
  }

  lemma MovedStream<Q>(w: World<Q>, w': World<Q>, q: Q, st: Stream, st': Stream)
    requires StreamInv(w, q, st) && EmissionInv(st') && Moves(st, st') && w'.(streams := w.streams) == w
    ensures StreamInv(w', q, st')
  {
  }

  lemma MoveKeepsInv<Q>(limits: Limits, w: World<Q>, q: Q, st: Stream)
    requires Inv(limits, w) && q in w.streams && EmissionInv(st) && Moves(w.streams[q], st)
    ensures Inv(limits, w.(streams := w.streams[q := st]))
  {
    var w' := w.(streams := w.streams[q := st]);
    forall app ensures AppInv(limits, w', app) {
      SameApp(limits, w, w', app);
    }
    forall app ensures SubscribersInv(w', app) {
      SameSubscribers(w, w', app);
    }
    forall p | p in w'.streams ensures StreamInv(w', p, w'.streams[p]) {
      if p == q {
        MovedStream(w, w', q, w.streams[q], st);
      } else {
        StreamUnmoved(w, w', p, w.streams[p]);
      }
    }
  }

  lemma ClosedApp<Q>(limits: Limits, w: World<Q>, op: Op<Q>, app: string)
    requires Inv(limits, w) && op.Close? && op.queue in w.streams && w.streams[op.queue].pc == Closing
    ensures AppInv(limits, Step(limits, w, op), app)
  {
    assert forall a :: a in w.broker.buffers ==> AppInv(limits, w, a);
    assert AppInv(limits, w, app);
  }

  lemma OneLessSubscriber<Q>(w: World<Q>, w': World<Q>, q: Q, p: Q)
    requires q in w.streams && p in w.streams && w.streams[q].pc == Closing
    requires StreamInv(w, q, w.streams[q]) && StreamInv(w, p, w.streams[p])
    requires w'.streams == w.streams[q := w.streams[q].(pc := Closed)]
    requires w'.log == w.log
    requires var a := w.streams[p].app;
             SubscribersOf(w'.broker, a)
             == if a == w.streams[q].app then SubscribersOf(w.broker, a) - {q} else SubscribersOf(w.broker, a)
    ensures StreamInv(w', p, w'.streams[p])
  {
    if p != q {
      StreamUnmoved(w, w', p, w.streams[p]);
    }
  }

  lemma UnsubscribedSubscribers<Q>(limits: Limits, s: State<Q>, left: string, q: Q, now: int, app: string)
    ensures var subscribers := Unsubscribed(limits, s, left, q, now).subscribers;
            && (app in subscribers ==> app in s.subscribers && (s.subscribers[app] != {} ==> subscribers[app] != {})
                                       && subscribers[app] <= s.subscribers[app])
    ensures SubscribersOf(Unsubscribed(limits, s, left, q, now), app)
         == if app == left then SubscribersOf(s, app) - {q} else SubscribersOf(s, app)
  {
  }

  lemma ClosedSubscribers<Q>(limits: Limits, w: World<Q>, op: Op<Q>, app: string)
    requires Inv(limits, w) && op.Close? && op.queue in w.streams && w.streams[op.queue].pc == Closing
    ensures var w' := Step(limits, w, op);
            && SubscribersInv(w', app)
            && SubscribersOf(w'.broker, app)
               == if app == w.streams[op.queue].app then SubscribersOf(w.broker, app) - {op.queue}
                  else SubscribersOf(w.broker, app)
  {
    assert SubscribersInv(w, app);
    UnsubscribedSubscribers(limits, w.broker, w.streams[op.queue].app, op.queue, op.now, app);
  }

  lemma CloseKeepsInv<Q>(limits: Limits, w: World<Q>, op: Op<Q>)
    requires Inv(limits, w) && op.Close? && op.queue in w.streams && w.streams[op.queue].pc == Closing
    ensures Inv(limits, Step(limits, w, op))
  {
    var w' := Step(limits, w, op);
    forall app ensures AppInv(limits, w', app) && SubscribersInv(w', app) {
      ClosedApp(limits, w, op, app);
      ClosedSubscribers(limits, w, op, app);
    }
    forall p | p in w'.streams ensures StreamInv(w', p, w'.streams[p]) {
      ClosedSubscribers(limits, w, op, w.streams[p].app);
      OneLessSubscriber(w, w', op.queue, p);
    }
  }

  lemma PulledMoves(st: Stream)
    ensures Moves(st, Pulled(st))
  {
  }

  lemma PullKeepsInv<Q>(limits: Limits, w: World<Q>, q: Q)
    requires Inv(limits, w)
    ensures Inv(limits, Step(limits, w, Pull(q)))
  {
    if q in w.streams {
      var st := w.streams[q];
      assert EmissionInv(st) by {
        assert StreamInv(w, q, st);
      }
      EmissionGoesOn(st);
      PulledMoves(st);
      MoveKeepsInv(limits, w, q, Pulled(st));
    }
  }

  lemma DisconnectKeepsInv<Q>(limits: Limits, w: World<Q>, q: Q)
    requires Inv(limits, w)
    ensures Inv(limits, Step(limits, w, Disconnect(q)))
  {
    if q in w.streams && w.streams[q].pc != Closed && w.streams[q].pc != Closing {
      var st := w.streams[q];
      assert EmissionInv(st) by {
        assert StreamInv(w, q, st);
      }
      MoveKeepsInv(limits, w, q, st.(pc := Closing, gone := true));
    }
  }

  lemma StepKeepsInv<Q>(limits: Limits, w: World<Q>, op: Op<Q>)
    requires Inv(limits, w)
    ensures Inv(limits, Step(limits, w, op))
  {
    match op
    case Publish(app, event, now) => PublishKeepsInv(limits, w, op);
    case Open(q, app, now) =>
      if q !in w.streams {
        OpenKeepsInv(limits, w, q, app, now);
      }
    case Pull(q) => PullKeepsInv(limits, w, q);
    case Disconnect(q) => DisconnectKeepsInv(limits, w, q);
    case Close(q, now) =>
      if q in w.streams && w.streams[q].pc == Closing {
        CloseKeepsInv(limits, w, op);
      }
  }

  lemma {:induction false} RunKeepsInv<Q>(limits: Limits, ops: seq<Op<Q>>)
    ensures Inv(limits, Run(limits, ops))
  {
    if ops != [] {
      RunKeepsInv(limits, ops[..|ops| - 1]);
      StepKeepsInv(limits, Run(limits, ops[..|ops| - 1]), ops[|ops| - 1]);
    }
  }
}
