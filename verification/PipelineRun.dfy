/** The background run: what it publishes and what it leaves paused, for every way the agents can answer. */
module PipelineRun {
  import opened Wrappers
  import opened Broker
  import opened Streams
  import opened StreamGuarantees
  import opened Workflow
  import opened Orchestrator

  /** How the KYC agent answers: the call raises, or returns with a status. */
  datatype KycReply = KycRaises | KycStatus(pass: bool)

  /** How underwriting answers. Preparing the call may raise as well; `complete` says whether an approval holds every
      field the response is built from, `terms` and `fee` are what is saved. */
  datatype Decision =
    | Decline
    | Approve(terms: Request, fee: int, complete: bool)
    | CounterOffer(terms: Request, fee: int)
    | NoOfferData
    | Unsupported

  datatype UnderwritingReply = UnderwritingRaises | Decided(decision: Decision)

  /** The world a run meets. The three flags are exceptions outside any try: before the first event, while the KYC
      request is built, while the underwriting request is built. */
  datatype Agents = Agents(
    startRaises: bool, kycMapperRaises: bool, kyc: KycReply, underwritingMapperRaises: bool,
    underwriting: UnderwritingReply)

  /** The events of `execute_until_decision` and whether it raises. */
  datatype Course = Course(events: seq<Event>, raises: bool)

  function Progress(name: string): Event { Event(name, false) }

  function Terminal(name: string): Event { Event(name, true) }

  function DecisionCourse(decision: Decision): Course {
    match decision
    case Decline => Course([Terminal("APPLICATION_DECLINED")], false)
    case Approve(_, _, complete) => Course([Terminal("APPLICATION_APPROVED")], !complete)
    case CounterOffer(_, _) => Course([Terminal("COUNTER_OFFER_PENDING")], false)
    case NoOfferData => Course([], true)
    case Unsupported => Course([], true)
  }

  function After(events: seq<Event>, rest: Course): Course {
    Course(events + rest.events, rest.raises)
  }

  function UnderwritingCourse(a: Agents): Course {
    if a.underwritingMapperRaises then Course([], true)
    else
      After([Progress("UNDERWRITING_STARTED")],
            match a.underwriting
            case UnderwritingRaises => Course([Terminal("UNDERWRITING_FAILED")], true)
            case Decided(decision) => DecisionCourse(decision))
  }

  function PipelineCourse(a: Agents): Course {
    if a.startRaises then Course([], true)
    else
      After([Progress("KYC_TRIGGERED")],
            if a.kycMapperRaises then Course([], true)
            else
              match a.kyc
              case KycRaises => Course([Terminal("KYC_FAILED")], true)
              case KycStatus(false) => Course([Terminal("KYC_FAILED")], false)
              case KycStatus(true) => After([Progress("KYC_PASSED")], UnderwritingCourse(a)))
  }

  /** Underwriting was reached and answered. */
  predicate Reaches(a: Agents, decision: Decision) {
    && !a.startRaises && !a.kycMapperRaises && a.kyc == KycStatus(true) && !a.underwritingMapperRaises
    && a.underwriting == Decided(decision)
  }

  predicate Pauses(a: Agents) {
    a.underwriting.Decided? && Reaches(a, a.underwriting.decision)
    && (a.underwriting.decision.Approve? || a.underwriting.decision.CounterOffer?)
  }

  /** What is saved. The counter-offer data has answered `get` before, so it is an object and no list of offers. */
  function PausedBy(decision: Decision): (p: Paused)
    requires decision.Approve? || decision.CounterOffer?
    ensures OffersUnreadable(p)
  {
    match decision
    case Approve(terms, fee, _) => Paused(AwaitingApprovalConfirmation, terms, fee, None)
    case CounterOffer(terms, fee) => Paused(AwaitingOfferSelection, terms, fee, None)
  }

  /** The phases, with every emission in its place; a pause is saved before it is announced. */
  method ExecuteUntilDecision(store: PipelineStateStore, app: string, a: Agents)
    returns (events: seq<Event>, raises: bool)
    modifies store
    ensures Course(events, raises) == PipelineCourse(a)
    ensures store.store
         == if Pauses(a) then old(store.store)[app := PausedBy(a.underwriting.decision)] else old(store.store)
  {
    events := [];
    if a.startRaises {
      return events, true;
    }
    events := events + [Progress("KYC_TRIGGERED")];
    if a.kycMapperRaises {
      return events, true;
    }
    match a.kyc {
      case KycRaises =>
        events := events + [Terminal("KYC_FAILED")];
        return events, true;
      case KycStatus(pass) =>
        if !pass {
          events := events + [Terminal("KYC_FAILED")];
          return events, false;
        }
    }
    events := events + [Progress("KYC_PASSED")];
    if a.underwritingMapperRaises {
      return events, true;
    }
    events := events + [Progress("UNDERWRITING_STARTED")];
    match a.underwriting {
      case UnderwritingRaises =>
        events := events + [Terminal("UNDERWRITING_FAILED")];
        return events, true;
      case Decided(decision) =>
        match decision {
          case Decline =>
            events := events + [Terminal("APPLICATION_DECLINED")];
            raises := false;
          case Approve(terms, fee, complete) =>
            store.SaveState(app, Paused(AwaitingApprovalConfirmation, terms, fee, None));
            events := events + [Terminal("APPLICATION_APPROVED")];
            raises := !complete;
          case CounterOffer(terms, fee) =>
            store.SaveState(app, Paused(AwaitingOfferSelection, terms, fee, None));
            events := events + [Terminal("COUNTER_OFFER_PENDING")];
            raises := false;
          case NoOfferData =>
            raises := true;
          case Unsupported =>
            raises := true;
        }
    }
  }

  /** A run that is not cancelled: a raised exception is announced as well. */
  function RunEvents(a: Agents): seq<Event> {
    var course := PipelineCourse(a);
    course.events + (if course.raises then [Terminal("PIPELINE_FAILED")] else [])
  }

  method RunPipeline(store: PipelineStateStore, app: string, a: Agents) returns (events: seq<Event>)
    modifies store
    ensures events == RunEvents(a)
    ensures store.store
         == if Pauses(a) then old(store.store)[app := PausedBy(a.underwriting.decision)] else old(store.store)
  {
    var raises;
    events, raises := ExecuteUntilDecision(store, app, a);
    if raises {
      events := events + [Terminal("PIPELINE_FAILED")];
    }
  }

  function Names(events: seq<Event>): (names: seq<string>)
    ensures |names| == |events| && forall i :: 0 <= i < |names| ==> names[i] == events[i].name
  {
    if events == [] then [] else [events[0].name] + Names(events[1..])
  }

  lemma NamesConcat(a: seq<Event>, b: seq<Event>)
    ensures Names(a + b) == Names(a) + Names(b)
  {
  }

  /** Underwriting was asked: nothing raised before, and KYC passed. */
  predicate Underwritten(a: Agents) {
    !a.startRaises && !a.kycMapperRaises && a.kyc == KycStatus(true) && !a.underwritingMapperRaises
  }

  /** What a run that stops before underwriting is asked says, event by event. */
  lemma EarlyRunsSay(a: Agents)
    requires !Underwritten(a)
    ensures Names(RunEvents(a))
         == if a.startRaises then ["PIPELINE_FAILED"]
            else if a.kycMapperRaises then ["KYC_TRIGGERED", "PIPELINE_FAILED"]
            else if a.kyc == KycRaises then ["KYC_TRIGGERED", "KYC_FAILED", "PIPELINE_FAILED"]
            else if a.kyc == KycStatus(false) then ["KYC_TRIGGERED", "KYC_FAILED"]
            else ["KYC_TRIGGERED", "KYC_PASSED", "PIPELINE_FAILED"]
  {
    NamesConcat(PipelineCourse(a).events, [Terminal("PIPELINE_FAILED")]);
  }

  /** How a run goes on once underwriting is asked. */
  lemma UnderwrittenRunsSay(a: Agents)
    requires Underwritten(a)
    ensures Names(RunEvents(a))
         == ["KYC_TRIGGERED", "KYC_PASSED", "UNDERWRITING_STARTED"]
            + match a.underwriting
              case UnderwritingRaises => ["UNDERWRITING_FAILED", "PIPELINE_FAILED"]
              case Decided(Decline) => ["APPLICATION_DECLINED"]
              case Decided(Approve(_, _, complete)) =>
                if complete then ["APPLICATION_APPROVED"] else ["APPLICATION_APPROVED", "PIPELINE_FAILED"]
              case Decided(CounterOffer(_, _)) => ["COUNTER_OFFER_PENDING"]
              case Decided(NoOfferData) => ["PIPELINE_FAILED"]
              case Decided(Unsupported) => ["PIPELINE_FAILED"]
  {
    var rest := match a.underwriting
      case UnderwritingRaises => Course([Terminal("UNDERWRITING_FAILED")], true)
      case Decided(decision) => DecisionCourse(decision);
    var failed := if rest.raises then [Terminal("PIPELINE_FAILED")] else [];
    var quiet := [Progress("KYC_TRIGGERED"), Progress("KYC_PASSED"), Progress("UNDERWRITING_STARTED")];
    assert RunEvents(a) == quiet + (rest.events + failed);
    NamesConcat(quiet, rest.events + failed);
    NamesConcat(rest.events, failed);
  }

  predicate Announces(a: Agents, name: string) {
    exists i :: 0 <= i < |RunEvents(a)| && RunEvents(a)[i].name == name
  }

  lemma AnnouncesIsNamed(a: Agents, name: string)
    ensures Announces(a, name) <==> name in Names(RunEvents(a))
  {
  }

  // Each decision and each failure is announced as itself: by the runs in which it happens, and by no other.

  lemma ApprovalsAreAnnouncedIff(a: Agents)
    ensures Announces(a, "APPLICATION_APPROVED")
            <==> Underwritten(a) && a.underwriting.Decided? && a.underwriting.decision.Approve?
  {
    AnnouncesIsNamed(a, "APPLICATION_APPROVED");
    if Underwritten(a) {
      UnderwrittenRunsSay(a);
    } else {
      EarlyRunsSay(a);
    }
  }

  lemma DeclinesAreAnnouncedIff(a: Agents)
    ensures Announces(a, "APPLICATION_DECLINED")
            <==> Underwritten(a) && a.underwriting == Decided(Decline)
  {
    AnnouncesIsNamed(a, "APPLICATION_DECLINED");
    if Underwritten(a) {
      UnderwrittenRunsSay(a);
    } else {
      EarlyRunsSay(a);
    }
  }

  lemma CounterOffersAreAnnouncedIff(a: Agents)
    ensures Announces(a, "COUNTER_OFFER_PENDING")
            <==> Underwritten(a) && a.underwriting.Decided? && a.underwriting.decision.CounterOffer?
  {
    AnnouncesIsNamed(a, "COUNTER_OFFER_PENDING");
    if Underwritten(a) {
      UnderwrittenRunsSay(a);
    } else {
      EarlyRunsSay(a);
    }
  }

  lemma KycFailuresAreAnnouncedIff(a: Agents)
    ensures Announces(a, "KYC_FAILED")
            <==> !a.startRaises && !a.kycMapperRaises && a.kyc != KycStatus(true)
  {
    AnnouncesIsNamed(a, "KYC_FAILED");
    if Underwritten(a) {
      UnderwrittenRunsSay(a);
    } else {
      EarlyRunsSay(a);
    }
  }

  lemma UnderwritingFailuresAreAnnouncedIff(a: Agents)
    ensures Announces(a, "UNDERWRITING_FAILED")
            <==> Underwritten(a) && a.underwriting == UnderwritingRaises
  {
    AnnouncesIsNamed(a, "UNDERWRITING_FAILED");
    if Underwritten(a) {
      UnderwrittenRunsSay(a);
    } else {
      EarlyRunsSay(a);
    }
  }

  lemma PipelineFailuresAreAnnouncedIff(a: Agents)
    ensures Announces(a, "PIPELINE_FAILED")
            <==> a.startRaises || a.kycMapperRaises || a.kyc == KycRaises
                 || (a.kyc == KycStatus(true)
                     && (a.underwritingMapperRaises || a.underwriting == UnderwritingRaises
                         || a.underwriting.decision == NoOfferData || a.underwriting.decision == Unsupported
                         || (a.underwriting.decision.Approve? && !a.underwriting.decision.complete)))
  {
    AnnouncesIsNamed(a, "PIPELINE_FAILED");
    if Underwritten(a) {
      UnderwrittenRunsSay(a);
    } else {
      EarlyRunsSay(a);
    }
  }

  /** The events that end a stream. */
  predicate EndsAStream(name: string) {
    name in ["KYC_FAILED", "UNDERWRITING_FAILED", "APPLICATION_DECLINED", "APPLICATION_APPROVED",
             "COUNTER_OFFER_PENDING", "PIPELINE_FAILED"]
  }

  lemma FlagsAreByName(a: Agents, i: nat)
    requires i < |RunEvents(a)|
    ensures RunEvents(a)[i].isTerminal <==> EndsAStream(RunEvents(a)[i].name)
  {
  }

  /** A saved approval can be confirmed into the very terms; a saved counter-offer cannot be resumed at all. */
  lemma SavedPausesResume(terms: Request, fee: int, complete: bool, kind: Kind)
    ensures ResumeRequest(PausedBy(Approve(terms, fee, complete)), kind)
         == if kind == ConfirmApproval then Some(terms) else None
    ensures ResumeRequest(PausedBy(CounterOffer(terms, fee)), kind) == None
  {
  }

  /** The runs in which two events are terminal: something raised after a terminal event was already out. */
  predicate AnnouncedTwice(a: Agents) {
    && !a.startRaises && !a.kycMapperRaises
    && (|| a.kyc == KycRaises
        || (a.kyc == KycStatus(true) && !a.underwritingMapperRaises
            && (a.underwriting == UnderwritingRaises
                || (a.underwriting.Decided? && a.underwriting.decision.Approve? && !a.underwriting.decision.complete))))
  }

  /** The shape of a course: progress, then at most one terminal event; without one it raises. */
  predicate WellShaped(c: Course) {
    || (NoTerminal(c.events) && c.raises)
    || (EndsTerminal(c.events) && NoTerminal(c.events[..|c.events| - 1]))
  }

  lemma ShapeAfter(quiet: seq<Event>, rest: Course)
    requires NoTerminal(quiet) && WellShaped(rest)
    ensures WellShaped(After(quiet, rest))
    ensures EndsTerminal(After(quiet, rest).events) <==> EndsTerminal(rest.events)
  {
    if rest.events != [] {
      assert (quiet + rest.events)[..|quiet + rest.events| - 1] == quiet + rest.events[..|rest.events| - 1];
    } else {
      assert quiet + rest.events == quiet;
    }
  }

  lemma CoursesAreWellShaped(a: Agents)
    ensures var c := PipelineCourse(a);
            WellShaped(c) && (c.raises && EndsTerminal(c.events) <==> AnnouncedTwice(a))
  {
    if !a.startRaises {
      if a.kycMapperRaises {
        ShapeAfter([Progress("KYC_TRIGGERED")], Course([], true));
      } else if a.kyc == KycStatus(true) {
        var u := UnderwritingCourse(a);
        if !a.underwritingMapperRaises {
          var rest := match a.underwriting
            case UnderwritingRaises => Course([Terminal("UNDERWRITING_FAILED")], true)
            case Decided(decision) => DecisionCourse(decision);
          ShapeAfter([Progress("UNDERWRITING_STARTED")], rest);
        }
        ShapeAfter([Progress("KYC_PASSED")], u);
        ShapeAfter([Progress("KYC_TRIGGERED")], After([Progress("KYC_PASSED")], u));
      } else {
        ShapeAfter([Progress("KYC_TRIGGERED")], Course([Terminal("KYC_FAILED")], a.kyc.KycRaises?));
      }
    }
  }

  lemma ShownThrough(quiet: seq<Event>, last: Event, rest: seq<Event>)
    requires NoTerminal(quiet) && last.isTerminal
    ensures ThroughFirstTerminal(quiet + [last] + rest) == quiet + [last]
  {
    assert quiet + [last] + rest == quiet + ([last] + rest);
    NoTerminalThenRest(quiet, [last] + rest);
  }

  /** Every finished run ends with a terminal event; a client sees all of it but, in those runs, the last event. */
  lemma FinishedRunsEndTerminal(a: Agents)
    ensures EndsTerminal(RunEvents(a))
    ensures ThroughFirstTerminal(RunEvents(a))
         == if AnnouncedTwice(a) then RunEvents(a)[..|RunEvents(a)| - 1] else RunEvents(a)
  {
    CoursesAreWellShaped(a);
    var c := PipelineCourse(a);
    var tail := if c.raises then [Terminal("PIPELINE_FAILED")] else [];
    if EndsTerminal(c.events) {
      var quiet, last := c.events[..|c.events| - 1], c.events[|c.events| - 1];
      assert c.events == quiet + [last];
      ShownThrough(quiet, last, tail);
      assert RunEvents(a)[..|c.events|] == c.events;
    } else {
      ShownThrough(c.events, Terminal("PIPELINE_FAILED"), []);
      assert c.events + tail + [] == RunEvents(a);
    }
  }

  /** What one application's log holds when all its runs, each accepted first, have finished. */
  function LogOfRuns(runs: seq<Agents>): seq<Event> {
    if runs == [] then []
    else LogOfRuns(runs[..|runs| - 1]) + [Progress("PIPELINE_ACCEPTED")] + RunEvents(runs[|runs| - 1])
  }

  /** A run of the broker in which what is published for app is what its runs publish. */
  predicate FedByRuns<Q>(ops: seq<Op<Q>>, app: string, runs: seq<Agents>) {
    runs != [] && PublishedTo(ops, app) == LogOfRuns(runs)
  }

  /** Once the runs of an application have finished, every open stream of it ends, if an event was published since it
      opened or was available then: it has sent its segment through the first terminal event. */
  lemma FinishedApplicationsEndTheirStreams<Q>(limits: Limits, before: seq<Op<Q>>, q: Q, app: string, now: int,
                                               after: seq<Op<Q>>, runs: seq<Agents>)
    requires q !in Run(limits, before).streams && FedByRuns(before + [Open(q, app, now)] + after, app, runs)
    requires PublishedTo(after, app) != []
             || (limits.maxEvents >= 1 && app in Run(limits, before + [Open(q, app, now)]).available)
    ensures var ops := before + [Open(q, app, now)] + after;
            && q in Run(limits, ops).streams
            && var st := Run(limits, ops).streams[q];
               Running(st.pc) ==>
                 exists n: nat :: n <= |Segment(st)| + 1 && PulledTimes(st, n).pc == Closing
                             && PulledTimes(st, n).emitted == ThroughFirstTerminal(Segment(st))
  {
    var ops := before + [Open(q, app, now)] + after;
    ReceivesWhatFollows(limits, before, q, app, now, after);
    HandedAnEventIff(limits, before, q, app, now, after);
    LogIsPublished(limits, ops, app);
    FinishedRunsEndTerminal(runs[|runs| - 1]);
    if Running(Run(limits, ops).streams[q].pc) {
      StreamsEnd(limits, ops, q);
    }
  }

  // ---- It happens: a later run that is hidden --------------------------------------------------

  lemma PublishedNow<Q>(limits: Limits, ops: seq<Op<Q>>, app: string, event: Event)
    requires limits.ttl > 0 && (app in Run(limits, ops).lastAt ==> Run(limits, ops).lastAt[app] == 0)
    ensures var w, w' := Run(limits, ops), Run(limits, ops + [Op.Publish(app, event, 0)]);
            && Get(w'.available, app) == Get(w.available, app) + [event] && app in w'.available
            && app in w'.lastAt && w'.lastAt[app] == 0 && w'.streams.Keys == w.streams.Keys
  {
    EvictionIff(limits, ops, app, 0);
    assert (ops + [Op.Publish(app, event, 0)])[..|ops|] == ops;
  }

  /** An application's run fails at once, is accepted again, and the new run is under way before and after a client
      opens a stream. */
  function Restarted<Q>(app: string): seq<Op<Q>> {
    [] + [Op.Publish(app, Progress("PIPELINE_ACCEPTED"), 0)] + [Op.Publish(app, Terminal("PIPELINE_FAILED"), 0)]
    + [Op.Publish(app, Progress("PIPELINE_ACCEPTED"), 0)]
  }

  lemma ThreePublished<Q>(limits: Limits, app: string, a: Event, b: Event, c: Event)
    requires limits.ttl > 0
    ensures var ops: seq<Op<Q>> := [] + [Op.Publish(app, a, 0)] + [Op.Publish(app, b, 0)] + [Op.Publish(app, c, 0)];
            && Get(Run(limits, ops).available, app) == [a, b, c] && app in Run(limits, ops).available
            && app in Run(limits, ops).lastAt && Run(limits, ops).lastAt[app] == 0
            && Run(limits, ops).streams.Keys == {}
  {
    var ops: seq<Op<Q>> := [];
    assert Run(limits, ops) == Empty<Q>();
    PublishedNow(limits, ops, app, a);
    PublishedNow(limits, ops + [Op.Publish(app, a, 0)], app, b);
    PublishedNow(limits, ops + [Op.Publish(app, a, 0)] + [Op.Publish(app, b, 0)], app, c);
  }

  lemma FreshHistory<Q>(limits: Limits, ops: seq<Op<Q>>, app: string, q: Q)
    requires limits.ttl > 0 && q !in Run(limits, ops).streams
    requires app in Run(limits, ops).lastAt && Run(limits, ops).lastAt[app] == 0
    requires |Get(Run(limits, ops).available, app)| <= limits.maxEvents
    ensures var w := Step(limits, Run(limits, ops), Open(q, app, 0));
            q in w.streams && w.streams[q].history == Get(Run(limits, ops).available, app)
  {
    EvictionIff(limits, ops, app, 0);
    HistoryIsTheNewest(limits, ops, q, app, 0);
  }

  lemma RestartedHistory<Q>(limits: Limits, app: string, q: Q)
    requires limits.maxEvents >= 3 && limits.ttl > 0
    ensures q !in Run(limits, Restarted<Q>(app)).streams
    ensures var w := Step(limits, Run(limits, Restarted(app)), Open(q, app, 0));
            && q in w.streams
            && w.streams[q].history
               == [Progress("PIPELINE_ACCEPTED"), Terminal("PIPELINE_FAILED"), Progress("PIPELINE_ACCEPTED")]
  {
    ThreePublished<Q>(limits, app, Progress("PIPELINE_ACCEPTED"), Terminal("PIPELINE_FAILED"),
                      Progress("PIPELINE_ACCEPTED"));
    FreshHistory(limits, Restarted(app), app, q);
  }

  /** That is a run that has failed at its start, and the acceptance of the next. */
  lemma RestartedIsFedByRuns<Q>(app: string, a: Agents)
    requires a.startRaises
    ensures PublishedTo(Restarted<Q>(app), app) == LogOfRuns([a]) + [Progress("PIPELINE_ACCEPTED")]
  {
    var accepted, failed := Progress("PIPELINE_ACCEPTED"), Terminal("PIPELINE_FAILED");
    PublishedConcat<Q>([] + [Op.Publish(app, accepted, 0)] + [Op.Publish(app, failed, 0)],
                       [Op.Publish(app, accepted, 0)], app);
    PublishedConcat<Q>([] + [Op.Publish(app, accepted, 0)], [Op.Publish(app, failed, 0)], app);
    PublishedConcat<Q>([], [Op.Publish(app, accepted, 0)], app);
    assert [a][..0] == [];
    assert LogOfRuns([a]) == [] + [accepted] + RunEvents(a);
    assert RunEvents(a) == [failed];
  }

  lemma OpensAtTheStart<Q>(limits: Limits, w: Streams.World<Q>, q: Q, app: string, now: int)
    requires q !in w.streams
    ensures var w' := Step(limits, w, Open(q, app, now));
            && q in w'.streams && w'.streams[q].pc == InHistory(0) && w'.streams[q].received == []
            && w'.streams[q].app == app
  {
  }

  /** What is published reaches every open stream of the application. */
  lemma OpenStreamReceives<Q>(limits: Limits, ops: seq<Op<Q>>, q: Q, event: Event, now: int)
    requires q in Run(limits, ops).streams && Run(limits, ops).streams[q].pc != Closed
    ensures var st := Run(limits, ops).streams[q];
            var w' := Run(limits, ops + [Op.Publish(st.app, event, now)]);
            q in w'.streams && w'.streams[q] == Put(st, event)
  {
    var w := Run(limits, ops);
    RunKeepsInv(limits, ops);
    assert StreamInv(w, q, w.streams[q]);
    var op := Op.Publish(w.streams[q].app, event, now);
    assert (ops + [op])[..|ops|] == ops;
    assert Run(limits, ops + [op]) == Step(limits, w, op);
  }

  /** The client is shown the failure of the earlier run and nothing of the one under way. */
  lemma ALaterRunIsHidden<Q>(limits: Limits, app: string, q: Q)
    requires limits.maxEvents >= 3 && limits.ttl > 0
    ensures var ops := Restarted(app) + [Open(q, app, 0)] + [Op.Publish(app, Progress("KYC_TRIGGERED"), 0)];
            && q in Run(limits, ops).streams
            && var st := Run(limits, ops).streams[q];
               && st.pc == InHistory(0) && st.received == [Progress("KYC_TRIGGERED")]
               && ThroughFirstTerminal(Segment(st)) == [Progress("PIPELINE_ACCEPTED"), Terminal("PIPELINE_FAILED")]
  {
    var before := Restarted<Q>(app);
    var atOpen := before + [Open(q, app, 0)];
    RestartedHistory(limits, app, q);
    assert atOpen[..|before|] == before;
    assert Run(limits, atOpen) == Step(limits, Run(limits, before), Open(q, app, 0));
    OpensAtTheStart(limits, Run(limits, before), q, app, 0);
    OpenStreamReceives(limits, atOpen, q, Progress("KYC_TRIGGERED"), 0);
    ShownBefore(Progress("PIPELINE_ACCEPTED"), Terminal("PIPELINE_FAILED"), Progress("PIPELINE_ACCEPTED"),
                Progress("KYC_TRIGGERED"));
  }

  lemma ShownBefore(a: Event, b: Event, c: Event, d: Event)
    requires !a.isTerminal && b.isTerminal
    ensures ThroughFirstTerminal([a, b, c] + [d]) == [a, b]
  {
    ShownThrough([a], b, [c, d]);
    assert [a] + [b] + [c, d] == [a, b, c] + [d];
  }
}
