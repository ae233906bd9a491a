/** The event generator of a stream: the history first, then the queue, until a terminal event has been sent. */
module EventStream {
  import opened Broker
  import opened Streams
  import opened StreamGuarantees
  import PB = ProgressBroker

  lemma SentInFull(sent: seq<Event>, rest: seq<Event>)
    requires NoTerminal(sent) && rest == []
    ensures ThroughFirstTerminal(sent + rest) == sent && NoTerminal(sent + rest)
  {
    NoTerminalThenRest(sent, rest);
  }

  lemma SentThrough(quiet: seq<Event>, last: Event, rest: seq<Event>)
    requires NoTerminal(quiet) && last.isTerminal
    ensures ThroughFirstTerminal(quiet + [last] + rest) == quiet + [last] && !NoTerminal(quiet + [last] + rest)
  {
    assert quiet + [last] + rest == quiet + ([last] + rest);
    NoTerminalThenRest(quiet, [last] + rest);
    assert (quiet + [last] + rest)[|quiet|] == last;
  }

  /** The generator from its start until it has returned, or has nothing left to send and goes on with heartbeats. It
      has sent everything through the first terminal event and has unsubscribed exactly if it met one. */
  method SendUpdates(broker: PB.ProgressBroker, app: string, queue: PB.EventQueue, history: seq<Event>, now: int)
    returns (sent: seq<Event>, ended: bool)
    modifies broker, queue
    ensures sent == ThroughFirstTerminal(history + old(queue.items))
    ensures ended <==> !NoTerminal(history + old(queue.items))
    ensures broker.Snapshot()
         == if ended then Unsubscribed(broker.limits, old(broker.Snapshot()), app, queue, now)
            else old(broker.Snapshot())
    ensures |sent| > |history| || !ended ==> sent + queue.items == history + old(queue.items)
  {
    ghost var all := history + queue.items;
    sent := [];
    for i := 0 to |history|
      invariant sent == history[..i] && NoTerminal(sent)
      invariant queue.items == old(queue.items) && broker.Snapshot() == old(broker.Snapshot())
    {
      sent := sent + [history[i]];
      if history[i].isTerminal {
        SentThrough(history[..i], history[i], history[i + 1..] + queue.items);
        assert all == history[..i] + [history[i]] + (history[i + 1..] + queue.items);
        broker.Unsubscribe(app, queue, now);
        return sent, true;
      }
    }
    while queue.items != []
      invariant |history| <= |sent| && sent + queue.items == all && NoTerminal(sent)
      invariant broker.Snapshot() == old(broker.Snapshot())
      decreases |queue.items|
    {
      ghost var quiet, waiting := sent, queue.items;
      var event := queue.Get();
      sent := sent + [event];
      assert quiet + waiting == quiet + ([event] + queue.items) == sent + queue.items;
      if event.isTerminal {
        SentThrough(quiet, event, queue.items);
        broker.Unsubscribe(app, queue, now);
        return sent, true;
      }
    }
    SentInFull(sent, queue.items);
    ended := false;
  }
}
