/** What publishers and clients can rely on, over every run of the broker. */
module StreamGuarantees {
  import opened Broker
  import opened Streams

  /** Stream contiguity: history, then everything put on the queue, is one stretch of the application's log, with no
      gap, repetition or reordering; while the stream is open the stretch reaches the end of the log. */
  lemma StreamsAreContiguous<Q>(limits: Limits, ops: seq<Op<Q>>, q: Q)
    requires q in Run(limits, ops).streams
    ensures var w := Run(limits, ops);
            var st := w.streams[q];
            var log := Get(w.log, st.app);
            var n := |st.history + st.received|;
            && st.start + n <= |log| && log[st.start..st.start + n] == st.history + st.received
            && (st.pc != Closed ==> st.start + n == |log|)
  {
    RunKeepsInv(limits, ops);
    assert StreamInv(Run(limits, ops), q, Run(limits, ops).streams[q]);
  }

  function Least(a: nat, b: nat): nat {
    if a < b then a else b
  }

  /** A new stream's history is the newest min(max_events, available) events, and ends where the log ends. */
  lemma HistoryIsTheNewest<Q>(limits: Limits, ops: seq<Op<Q>>, q: Q, app: string, now: int)
    requires q !in Run(limits, ops).streams
    ensures var w := Step(limits, Run(limits, ops), Open(q, app, now));
            && q in w.streams
            && w.streams[q].history == Newest(limits.maxEvents, Get(w.available, app))
            && IsSuffix(w.streams[q].history, Get(w.available, app))
            && |w.streams[q].history| == Least(limits.maxEvents, |Get(w.available, app)|)
            && w.streams[q].start + |w.streams[q].history| == |Get(w.log, app)|
            && (w.streams[q].history == [] <==> limits.maxEvents == 0 || app !in w.available)
  {
    RunKeepsInv(limits, ops);
    OpenedStream(limits, Run(limits, ops), q, app, now);
    assert AppInv(limits, Step(limits, Run(limits, ops), Open(q, app, now)), app);
  }

  /** Buffers are bounded, no subscriber set is empty, and a running clock shows when the last event was published. */
  lemma BuffersAreBounded<Q>(limits: Limits, ops: seq<Op<Q>>, app: string)
    ensures var w := Run(limits, ops);
            && |BufferOf(w.broker, app)| <= limits.maxEvents
            && (app in w.broker.subscribers ==> w.broker.subscribers[app] != {})
            && (app in w.broker.terminalAt ==> app in w.lastAt && w.broker.terminalAt[app] == w.lastAt[app])
  {
    RunKeepsInv(limits, ops);
    assert AppInv(limits, Run(limits, ops), app) && SubscribersInv(Run(limits, ops), app);
  }

  /** In every run the clock runs for exactly the applications whose retained buffer ends with a terminal event. */
  ghost predicate ClockTracksBuffers(limits: Limits) {
    forall ops: seq<Op<nat>>, app :: ClockTracksBuffer(limits, ops, app)
  }

  predicate ClockTracksBuffer(limits: Limits, ops: seq<Op<nat>>, app: string) {
    var b := Run(limits, ops).broker;
    app in b.terminalAt <==> app in b.buffers && EndsTerminal(b.buffers[app])
  }

  /** That needs room for one event; with none, a terminal event starts the clock of an empty buffer. */
  lemma ClockTracksBuffersIff(limits: Limits)
    ensures ClockTracksBuffers(limits) <==> limits.maxEvents >= 1
  {
    if limits.maxEvents >= 1 {
      forall ops: seq<Op<nat>>, app ensures ClockTracksBuffer(limits, ops, app) {
        RunKeepsInv(limits, ops);
        assert AppInv(limits, Run(limits, ops), app);
      }
    } else {
      ClockRunsOnEmpty(limits, "a", Event("DONE", true));
    }
  }

  lemma ClockRunsOnEmpty(limits: Limits, app: string, event: Event)
    requires limits.maxEvents == 0 && event.isTerminal
    ensures !ClockTracksBuffer(limits, [Publish(app, event, 0)], app)
  {
    var ops: seq<Op<nat>> := [Publish(app, event, 0)];
    assert Run(limits, ops[..0]) == Empty<nat>();
    assert Run(limits, ops) == Step(limits, Empty<nat>(), ops[0]);
  }

  /** Eviction strikes an application exactly when its last event is terminal, was published at least ttl ago, and no
      stream of it is open. */
  lemma EvictionIff<Q>(limits: Limits, ops: seq<Op<Q>>, app: string, now: int)
    ensures var w := Run(limits, ops);
            app in ExpiredApps(limits, w.broker, now) <==>
              && app in w.available && EndsTerminal(w.available[app])
              && app in w.lastAt && now - w.lastAt[app] >= limits.ttl
              && forall q :: q in w.streams && w.streams[q].app == app ==> w.streams[q].pc == Closed
  {
    RunKeepsInv(limits, ops);
    var w := Run(limits, ops);
    assert AppInv(limits, w, app) && SubscribersInv(w, app);
    forall q | q in w.streams ensures StreamInv(w, q, w.streams[q]) {
    }
    if SubscribersOf(w.broker, app) != {} {
      var q :| q in SubscribersOf(w.broker, app);
      assert w.streams[q].pc != Closed;
    }
  }

  /** The broker as the expiry of one operation finds it: a closing stream has already left. */
  function AtExpiry<Q>(w: World<Q>, op: Op<Q>): State<Q> {
    match op
    case Close(q, _) =>
      if q in w.streams && w.streams[q].pc == Closing
      then LeftSubscribed(w.broker, w.streams[q].app, q) else w.broker
    case _ => w.broker
  }

  /** No other way to lose events: what is not expired stays available through every operation. */
  lemma OnlyExpiredAreDropped<Q>(limits: Limits, ops: seq<Op<Q>>, op: Op<Q>, app: string)
    requires var w := Run(limits, ops);
             app in w.available
             && (op.Publish? || op.Open? || op.Close? ==> app !in ExpiredApps(limits, AtExpiry(w, op), op.now))
    ensures var w := Run(limits, ops);
            w.available[app] <= Get(Step(limits, w, op).available, app)
  {
    RunKeepsInv(limits, ops);
    assert AppInv(limits, Run(limits, ops), app);
  }

  predicate Expires<Q>(w: World<Q>, op: Op<Q>) {
    op.Publish? || (op.Open? && op.queue !in w.streams)
    || (op.Close? && op.queue in w.streams && w.streams[op.queue].pc == Closing)
  }

  /** Every operation that publishes, opens or closes drops all that has expired: a terminal end of at least ttl ago,
      and no stream open but the one that closes. */
  lemma ExpiredAreDropped<Q>(limits: Limits, ops: seq<Op<Q>>, op: Op<Q>, app: string)
    requires var w := Run(limits, ops);
             && Expires(w, op) && !(op.Publish? && op.app == app)
             && app in w.available && EndsTerminal(w.available[app])
             && app in w.lastAt && op.now - w.lastAt[app] >= limits.ttl
             && forall q :: q in w.streams && w.streams[q].app == app && w.streams[q].pc != Closed ==>
                  op.Close? && q == op.queue
    ensures var b := Step(limits, Run(limits, ops), op).broker;
            app !in b.buffers && app !in b.terminalAt
  {
    RunKeepsInv(limits, ops);
    var w := Run(limits, ops);
    assert AppInv(limits, w, app) && SubscribersInv(w, app);
    forall q | q in SubscribersOf(w.broker, app) ensures op.Close? && q == op.queue {
      assert StreamInv(w, q, w.streams[q]);
    }
    if op.Close? && w.streams[op.queue].app == app {
      assert SubscribersOf(LeftSubscribed(w.broker, app, op.queue), app) == {};
    }
  }

  // ---- What a client sees ---------------------------------------------------------------------

  /** Everything up to and including the first terminal event; everything, if there is none. */
  function ThroughFirstTerminal(events: seq<Event>): seq<Event> {
    if events == [] then []
    else if events[0].isTerminal then [events[0]]
    else [events[0]] + ThroughFirstTerminal(events[1..])
  }

  lemma {:induction false} NoTerminalThenRest(quiet: seq<Event>, rest: seq<Event>)
    requires NoTerminal(quiet)
    ensures ThroughFirstTerminal(quiet + rest) == quiet + ThroughFirstTerminal(rest)
  {
    if quiet == [] {
      assert quiet + rest == rest;
    } else {
      assert (quiet + rest)[1..] == quiet[1..] + rest;
      NoTerminalThenRest(quiet[1..], rest);
    }
  }

  lemma {:induction false} TerminalHides(seen: seq<Event>, rest: seq<Event>)
    requires !NoTerminal(seen)
    ensures ThroughFirstTerminal(seen + rest) == ThroughFirstTerminal(seen)
  {
    assert (seen + rest)[1..] == seen[1..] + rest;
    if !seen[0].isTerminal {
      TerminalHides(seen[1..], rest);
    }
  }

  /** What a stream has sent is an initial part of what its segment shows through the first terminal event; it is all
      of it once the generator has stopped by itself. */
  lemma StreamsShowTheFirstRun<Q>(limits: Limits, ops: seq<Op<Q>>, q: Q)
    requires q in Run(limits, ops).streams
    ensures var st := Run(limits, ops).streams[q];
            && st.emitted <= ThroughFirstTerminal(Segment(st))
            && ((st.pc.Closing? || st.pc.Closed?) && !st.gone ==> st.emitted == ThroughFirstTerminal(Segment(st)))
  {
    RunKeepsInv(limits, ops);
    var st := Run(limits, ops).streams[q];
    assert StreamInv(Run(limits, ops), q, st);
    EmittedPrefix(st);
  }

  lemma EmittedPrefix(st: Stream)
    requires EmissionInv(st)
    ensures st.emitted <= ThroughFirstTerminal(Segment(st))
    ensures EndsTerminal(st.emitted) ==> st.emitted == ThroughFirstTerminal(Segment(st))
  {
    var rest := Segment(st)[|st.emitted|..];
    assert Segment(st) == st.emitted + rest;
    if EndsTerminal(st.emitted) {
      var quiet, last := st.emitted[..|st.emitted| - 1], st.emitted[|st.emitted| - 1];
      assert st.emitted == quiet + [last] && Segment(st) == quiet + ([last] + rest);
      NoTerminalThenRest(quiet, [last] + rest);
    } else {
      NoTerminalThenRest(st.emitted, rest);
    }
  }

  predicate Running(pc: Pc) {
    pc.InHistory? || pc.Live?
  }

  /** n resumptions of the generator with nothing published in between. */
  function PulledTimes(st: Stream, n: nat): Stream
    decreases n
  {
    if n == 0 then st else PulledTimes(Pulled(st), n - 1)
  }

  function StepsLeft(st: Stream): nat
    requires EmissionInv(st)
  {
    |Segment(st)| - |st.emitted| + (if st.pc.InHistory? then 1 else 0)
  }

  /** It has not stopped, and what it has been handed will make it stop. */
  predicate Undrained(st: Stream) {
    EmissionInv(st) && Running(st.pc) && !NoTerminal(Segment(st))
  }

  lemma PullMovesOn(st: Stream)
    requires Undrained(st)
    ensures var st' := Pulled(st);
            && EmissionInv(st') && Segment(st') == Segment(st) && StepsLeft(st') < StepsLeft(st)
            && (Undrained(st') || (st'.pc == Closing && EndsTerminal(st'.emitted)))
  {
    EmissionGoesOn(st);
    assert st.pc.Live? && st.waiting == [] ==> st.emitted == Segment(st);
    assert st.pc.Live? ==> |st.emitted| + |st.waiting| == |Segment(st)|;
  }

  predicate DrainedBy(st: Stream, n: nat) {
    PulledTimes(st, n).pc == Closing && PulledTimes(st, n).emitted == ThroughFirstTerminal(Segment(st))
  }

  lemma StopsNow(st: Stream, st': Stream)
    requires st' == Pulled(st) && Segment(st') == Segment(st)
    requires EmissionInv(st') && st'.pc == Closing && EndsTerminal(st'.emitted)
    ensures DrainedBy(st, 1)
  {
    EmittedPrefix(st');
    assert PulledTimes(st, 1) == PulledTimes(st', 0) == st';
  }

  lemma OnceMore(st: Stream, st': Stream, n: nat)
    requires st' == Pulled(st) && Segment(st') == Segment(st) && DrainedBy(st', n)
    ensures DrainedBy(st, n + 1)
  {
  }

  lemma {:induction false} DrainsWithin(st: Stream, left: nat) returns (n: nat)
    requires Undrained(st) && StepsLeft(st) <= left
    ensures n <= left && DrainedBy(st, n)
    decreases left, 1
  {
    PullMovesOn(st);
    n := DrainsOn(st, Pulled(st), left);
  }

  lemma {:induction false} DrainsOn(st: Stream, st': Stream, left: nat) returns (n: nat)
    requires st' == Pulled(st) && EmissionInv(st') && Segment(st') == Segment(st) && StepsLeft(st') < left
    requires Undrained(st') || (st'.pc == Closing && EndsTerminal(st'.emitted))
    ensures n <= left && DrainedBy(st, n)
    decreases left, 0
  {
    if Undrained(st') {
      var n' := DrainsWithin(st', left - 1);
      OnceMore(st, st', n');
      n := n' + 1;
    } else {
      StopsNow(st, st');
      n := 1;
    }
  }

  /** A stream that will stop does so within as many resumptions as events are left, plus one. */
  lemma Drains(st: Stream) returns (n: nat)
    requires EmissionInv(st) && Running(st.pc) && !NoTerminal(Segment(st))
    ensures n <= StepsLeft(st)
    ensures PulledTimes(st, n).pc == Closing && PulledTimes(st, n).emitted == ThroughFirstTerminal(Segment(st))
  {
    n := DrainsWithin(st, StepsLeft(st));
  }

  /** Streams end: once the last event published for its application is terminal, an open stream that has been handed
      at least one event stops after finitely many resumptions, having sent exactly its segment through the first
      terminal event. Whether it was handed one is decided when it opens: see HistoryIsTheNewest. */
  lemma StreamsEnd<Q>(limits: Limits, ops: seq<Op<Q>>, q: Q)
    requires q in Run(limits, ops).streams
    requires var w := Run(limits, ops);
             var st := w.streams[q];
             Running(st.pc) && Segment(st) != [] && EndsTerminal(Get(w.log, st.app))
    ensures var st := Run(limits, ops).streams[q];
            exists n: nat :: n <= |Segment(st)| + 1 && PulledTimes(st, n).pc == Closing
                        && PulledTimes(st, n).emitted == ThroughFirstTerminal(Segment(st))
  {
    RunKeepsInv(limits, ops);
    var w := Run(limits, ops);
    OpenEndsWithTheLog(w, q, w.streams[q]);
    StreamEnds(w.streams[q]);
  }

  lemma OpenEndsWithTheLog<Q>(w: World<Q>, q: Q, st: Stream)
    requires StreamInv(w, q, st) && st.pc != Closed && Segment(st) != []
    ensures EndsTerminal(Segment(st)) <==> EndsTerminal(Get(w.log, st.app))
  {
    assert Segment(st)[|Segment(st)| - 1] == Get(w.log, st.app)[|Get(w.log, st.app)| - 1];
  }

  lemma StreamEnds(st: Stream)
    requires EmissionInv(st) && Running(st.pc) && EndsTerminal(Segment(st))
    ensures exists n: nat :: n <= |Segment(st)| + 1 && PulledTimes(st, n).pc == Closing
                        && PulledTimes(st, n).emitted == ThroughFirstTerminal(Segment(st))
  {
    assert Segment(st)[|Segment(st)| - 1].isTerminal;
    var n := Drains(st);
  }

  /** A stream with nothing left to send waits exactly as long as it has seen no terminal event. */
  lemma WaitsOnlyForATerminal<Q>(limits: Limits, ops: seq<Op<Q>>, q: Q)
    requires q in Run(limits, ops).streams && Running(Run(limits, ops).streams[q].pc)
    ensures var st := Run(limits, ops).streams[q];
            Pulled(st) == st ==> NoTerminal(Segment(st)) && st.emitted == Segment(st)
  {
    RunKeepsInv(limits, ops);
    var st := Run(limits, ops).streams[q];
    assert StreamInv(Run(limits, ops), q, st);
    if st.pc.Live? && st.waiting == [] {
      assert st.emitted == Segment(st);
    }
  }

  /** A later run is hidden: once the history a stream starts from holds a terminal event, nothing live is shown. */
  lemma LaterRunsAreHidden<Q>(limits: Limits, ops: seq<Op<Q>>, q: Q)
    requires q in Run(limits, ops).streams && !NoTerminal(Run(limits, ops).streams[q].history)
    ensures var st := Run(limits, ops).streams[q];
            && ThroughFirstTerminal(Segment(st)) == ThroughFirstTerminal(st.history)
            && st.emitted <= ThroughFirstTerminal(st.history)
  {
    StreamsShowTheFirstRun(limits, ops, q);
    TerminalHides(Run(limits, ops).streams[q].history, Run(limits, ops).streams[q].received);
  }

  lemma {:induction false} ShownLength(events: seq<Event>)
    ensures |ThroughFirstTerminal(events)| <= |events|
    ensures events != [] ==> ThroughFirstTerminal(events) != []
  {
    if events != [] {
      ShownLength(events[1..]);
    }
  }

  /** Something live is shown if and only if the history holds no terminal event. */
  lemma LiveEventsAreShownIff<Q>(limits: Limits, ops: seq<Op<Q>>, q: Q)
    requires q in Run(limits, ops).streams && Run(limits, ops).streams[q].received != []
    ensures var st := Run(limits, ops).streams[q];
            |ThroughFirstTerminal(Segment(st))| > |st.history| <==> NoTerminal(st.history)
  {
    SegmentShowsIff(Run(limits, ops).streams[q].history, Run(limits, ops).streams[q].received);
  }

  lemma SegmentShowsIff(history: seq<Event>, received: seq<Event>)
    requires received != []
    ensures |ThroughFirstTerminal(history + received)| > |history| <==> NoTerminal(history)
  {
    if NoTerminal(history) {
      NoTerminalThenRest(history, received);
      ShownLength(received);
    } else {
      TerminalHides(history, received);
      ShownLength(history);
    }
  }

  // ---- What a stream is handed ----------------------------------------------------------------

  /** The events the operations publish for app. */
  function PublishedTo<Q>(ops: seq<Op<Q>>, app: string): seq<Event> {
    if ops == [] then []
    else
      var op := ops[|ops| - 1];
      PublishedTo(ops[..|ops| - 1], app) + (if op.Publish? && op.app == app then [op.event] else [])
  }

  lemma {:induction false} LogIsPublished<Q>(limits: Limits, ops: seq<Op<Q>>, app: string)
    ensures Get(Run(limits, ops).log, app) == PublishedTo(ops, app)
  {
    if ops != [] {
      LogIsPublished(limits, ops[..|ops| - 1], app);
      StepsLog(limits, Run(limits, ops[..|ops| - 1]), ops[|ops| - 1], app);
    }
  }

  lemma StepsLog<Q>(limits: Limits, w: World<Q>, op: Op<Q>, app: string)
    ensures Get(Step(limits, w, op).log, app)
         == Get(w.log, app) + (if op.Publish? && op.app == app then [op.event] else [])
  {
  }

  lemma {:induction false} PublishedConcat<Q>(a: seq<Op<Q>>, b: seq<Op<Q>>, app: string)
    ensures PublishedTo(a + b, app) == PublishedTo(a, app) + PublishedTo(b, app)
  {
    if b == [] {
      assert a + b == a;
    } else {
      assert (a + b)[..|a + b| - 1] == a + b[..|b| - 1];
      PublishedConcat(a, b[..|b| - 1], app);
    }
  }

  /** What a stream keeps from its opening on. */
  predicate SameOpening<Q>(w: World<Q>, w': World<Q>, q: Q) {
    && q in w.streams && q in w'.streams && w'.streams[q].app == w.streams[q].app
    && w'.streams[q].start == w.streams[q].start && w'.streams[q].history == w.streams[q].history
  }

  lemma StepKeepsOpening<Q>(limits: Limits, w: World<Q>, op: Op<Q>, q: Q)
    requires q in w.streams
    ensures SameOpening(w, Step(limits, w, op), q)
  {
  }

  lemma {:induction false} RunKeepsOpening<Q>(limits: Limits, ops: seq<Op<Q>>, after: seq<Op<Q>>, q: Q)
    requires q in Run(limits, ops).streams
    ensures SameOpening(Run(limits, ops), Run(limits, ops + after), q)
  {
    if after == [] {
      assert ops + after == ops;
    } else {
      var before := after[..|after| - 1];
      RunKeepsOpening(limits, ops, before, q);
      OneMoreOp(limits, ops, after);
      StepKeepsOpening(limits, Run(limits, ops + before), after[|after| - 1], q);
    }
  }

  lemma OneMoreOp<Q>(limits: Limits, ops: seq<Op<Q>>, after: seq<Op<Q>>)
    requires after != []
    ensures Run(limits, ops + after) == Step(limits, Run(limits, ops + after[..|after| - 1]), after[|after| - 1])
  {
    LastOfConcat(ops, after);
    RunLast(limits, ops + after);
  }

  lemma LastOfConcat<T>(a: seq<T>, b: seq<T>)
    requires b != []
    ensures (a + b)[..|a + b| - 1] == a + b[..|b| - 1] && (a + b)[|a + b| - 1] == b[|b| - 1]
  {
  }

  lemma RunLast<Q>(limits: Limits, ops: seq<Op<Q>>)
    requires ops != []
    ensures Run(limits, ops) == Step(limits, Run(limits, ops[..|ops| - 1]), ops[|ops| - 1])
  {
  }

  /** While it is open, a stream receives as many events as are published for its application after it opened. */
  lemma ReceivesWhatFollows<Q>(limits: Limits, before: seq<Op<Q>>, q: Q, app: string, now: int, after: seq<Op<Q>>)
    requires q !in Run(limits, before).streams
    ensures var ops := before + [Open(q, app, now)];
            var atOpen, w := Run(limits, ops), Run(limits, ops + after);
            && SameOpening(atOpen, w, q) && w.streams[q].app == app
            && (w.streams[q].history == [] <==> limits.maxEvents == 0 || app !in atOpen.available)
            && (w.streams[q].pc != Closed ==> |w.streams[q].received| == |PublishedTo(after, app)|)
  {
    var ops := before + [Open(q, app, now)];
    assert ops[..|before|] == before;
    HistoryIsTheNewest(limits, before, q, app, now);
    RunKeepsOpening(limits, ops, after, q);
    LogIsPublished(limits, ops, app);
    LogIsPublished(limits, ops + after, app);
    PublishedConcat(ops, after, app);
    StreamsAreContiguous(limits, ops + after, q);
  }

  /** An open stream has been handed an event if and only if one was published since it opened, or one was available
      then and buffers have room. */
  lemma HandedAnEventIff<Q>(limits: Limits, before: seq<Op<Q>>, q: Q, app: string, now: int, after: seq<Op<Q>>)
    requires q !in Run(limits, before).streams
    ensures var ops := before + [Open(q, app, now)];
            var atOpen, w := Run(limits, ops), Run(limits, ops + after);
            && q in w.streams
            && (w.streams[q].pc != Closed ==>
                  (Segment(w.streams[q]) != [] <==>
                     PublishedTo(after, app) != [] || (limits.maxEvents >= 1 && app in atOpen.available)))
  {
    ReceivesWhatFollows(limits, before, q, app, now, after);
  }
}
