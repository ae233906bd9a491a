/** The sliding-window rate limiter over a sorted set that expires, measured against the full log of calls. */
module RateLimiter {
  /** A sorted set whose members are their own scores, and the millisecond from which the key is gone. */
  datatype Entry = Entry(members: set<int>, expiresAt: int)

  type Store = map<string, Entry>

  datatype Limits = Limits(limit: int, window: int)

  /** `int(time.time())`. */
  function SecondOf(ms: nat): int {
    ms / 1000
  }

  function LiveMembers(store: Store, key: string, ms: nat): set<int> {
    if key in store && ms < store[key].expiresAt then store[key].members else {}
  }

  /** `zremrangebyscore(key, 0, upTo)`. */
  function Pruned(members: set<int>, upTo: int): set<int> {
    set m | m in members && !(0 <= m <= upTo)
  }

  /** Prune the scores in [0, now - window], add now. */
  function Recorded(limits: Limits, store: Store, key: string, ms: nat): set<int> {
    Pruned(LiveMembers(store, key, ms), SecondOf(ms) - limits.window) + {SecondOf(ms)}
  }

  predicate AllowedBy(limits: Limits, counted: set<int>) {
    |counted| <= limits.limit
  }

  function AfterCall(limits: Limits, store: Store, key: string, ms: nat): Store {
    store[key := Entry(Recorded(limits, store, key, ms), ms + 1000 * limits.window)]
  }

  class RateLimiter {
    const limits: Limits
    var store: Store

    constructor (limit: int, windowSeconds: int)
      ensures limits == Limits(limit, windowSeconds) && store == map[]
    {
      limits := Limits(limit, windowSeconds);
      store := map[];
    }

    /** The pipeline: prune, add, count, expire. */
    method IsAllowed(key: string, ms: nat) returns (allowed: bool)
      modifies this
      ensures store == AfterCall(limits, old(store), key, ms)
      ensures allowed <==> AllowedBy(limits, Recorded(limits, old(store), key, ms))
      ensures key in store && store[key].expiresAt == ms + 1000 * limits.window && ms / 1000 in store[key].members
      ensures allowed <==> |store[key].members| <= limits.limit
      ensures forall other :: other != key ==>
                (other in store <==> other in old(store)) && (other in store ==> store[other] == old(store)[other])
    {
      var now := SecondOf(ms);
      var windowStart := now - limits.window;
      var members := Pruned(LiveMembers(store, key, ms), windowStart);
      members := members + {now};
      var count := |members|;
      store := store[key := Entry(members, ms + 1000 * limits.window)];
      return count <= limits.limit;
    }
  }

  // ---- Runs -----------------------------------------------------------------------------------

  /** A call and the seconds it was judged on. */
  datatype Call = Call(key: string, ms: nat, counted: set<int>)

  predicate Allowed(limits: Limits, c: Call) {
    AllowedBy(limits, c.counted)
  }

  datatype Request = Request(key: string, ms: nat)

  datatype World = World(store: Store, log: seq<Call>)

  function Next(limits: Limits, w: World, r: Request): World {
    World(AfterCall(limits, w.store, r.key, r.ms),
          w.log + [Call(r.key, r.ms, Recorded(limits, w.store, r.key, r.ms))])
  }

  function Run(limits: Limits, requests: seq<Request>): World {
    if requests == [] then World(map[], [])
    else Next(limits, Run(limits, requests[..|requests| - 1]), requests[|requests| - 1])
  }

  /** The clock never goes back. */
  predicate Chronological(requests: seq<Request>) {
    forall i, j :: 0 <= i <= j < |requests| ==> requests[i].ms <= requests[j].ms
  }

  predicate NoneLater(log: seq<Call>, ms: nat) {
    forall i :: 0 <= i < |log| ==> log[i].ms <= ms
  }

  /** The distinct seconds after `from` in which key was called. */
  function CallSeconds(log: seq<Call>, key: string, from: int): set<int> {
    if log == [] then {}
    else
      var c := log[|log| - 1];
      CallSeconds(log[..|log| - 1], key, from)
      + (if c.key == key && SecondOf(c.ms) > from then {SecondOf(c.ms)} else {})
  }

  lemma CallSecondsAppend(log: seq<Call>, c: Call, key: string, from: int)
    ensures c.key != key ==> CallSeconds(log + [c], key, from) == CallSeconds(log, key, from)
    ensures c.key == key ==> CallSeconds(log + [c], key, from) + {SecondOf(c.ms)}
                             == CallSeconds(log, key, from) + {SecondOf(c.ms)}
  {
    assert (log + [c])[..|log|] == log;
  }

  lemma LastCallAppend(log: seq<Call>, c: Call, key: string)
    ensures LastCall(log + [c], key) == if c.key == key then At(c.ms) else LastCall(log, key)
  {
    assert (log + [c])[..|log|] == log;
  }

  datatype Maybe = Never | At(ms: nat)

  function LastCall(log: seq<Call>, key: string): Maybe {
    if log == [] then Never
    else if log[|log| - 1].key == key then At(log[|log| - 1].ms)
    else LastCall(log[..|log| - 1], key)
  }

  lemma {:induction false} LaterFrom(log: seq<Call>, key: string, from: int, from': int, ms: nat)
    requires from <= from' && NoneLater(log, ms)
    ensures CallSeconds(log, key, from') == set x | x in CallSeconds(log, key, from) && x > from'
    ensures forall x :: x in CallSeconds(log, key, from) ==> 0 <= x <= SecondOf(ms) && x > from
  {
    if log != [] {
      LaterFrom(log[..|log| - 1], key, from, from', ms);
    }
  }

  predicate ChronologicalLog(log: seq<Call>) {
    forall i, j :: 0 <= i <= j < |log| ==> log[i].ms <= log[j].ms
  }

  lemma {:induction false} LastCallIsLast(log: seq<Call>, key: string, from: int)
    requires ChronologicalLog(log)
    ensures LastCall(log, key).Never? ==> CallSeconds(log, key, from) == {}
    ensures LastCall(log, key).At? ==>
              var s := SecondOf(LastCall(log, key).ms);
              && (s > from ==> s in CallSeconds(log, key, from))
              && forall x :: x in CallSeconds(log, key, from) ==> x <= s
  {
    if log != [] {
      var before := log[..|log| - 1];
      LastCallIsLast(before, key, from);
      LaterFrom(before, key, from, from, log[|log| - 1].ms);
    }
  }

  /** A called key's entry: what was called in the window before its last call, and when it expires. */
  predicate Inv(limits: Limits, w: World, key: string) {
    match LastCall(w.log, key)
    case Never => key !in w.store
    case At(last) =>
      key in w.store
      && w.store[key] == Entry(CallSeconds(w.log, key, SecondOf(last) - limits.window) + {SecondOf(last)},
                               last + 1000 * limits.window)
  }

  /** What a call counts is exactly what the full log says: expiry loses nothing that pruning would keep. */
  lemma RecordedIsTheWindow(limits: Limits, w: World, key: string, ms: nat)
    requires Inv(limits, w, key) && ChronologicalLog(w.log) && NoneLater(w.log, ms)
    ensures Recorded(limits, w.store, key, ms)
         == CallSeconds(w.log, key, SecondOf(ms) - limits.window) + {SecondOf(ms)}
  {
    var from := SecondOf(ms) - limits.window;
    LastCallIsLast(w.log, key, from);
    match LastCall(w.log, key)
    case Never =>
    case At(last) =>
      LastCallIsNotLater(w.log, key, ms);
      LaterFrom(w.log, key, SecondOf(last) - limits.window, from, ms);
      if ms >= last + 1000 * limits.window {
        assert SecondOf(last) <= from;
        assert CallSeconds(w.log, key, from) == {};
      }
  }

  lemma {:induction false} LastCallIsNotLater(log: seq<Call>, key: string, ms: nat)
    requires NoneLater(log, ms)
    ensures LastCall(log, key).At? ==> LastCall(log, key).ms <= ms
  {
    if log != [] {
      LastCallIsNotLater(log[..|log| - 1], key, ms);
    }
  }

  lemma NextKeepsInv(limits: Limits, w: World, r: Request, key: string)
    requires Inv(limits, w, key) && ChronologicalLog(w.log) && NoneLater(w.log, r.ms)
    ensures Inv(limits, Next(limits, w, r), key)
  {
    var c := Call(r.key, r.ms, Recorded(limits, w.store, r.key, r.ms));
    LastCallAppend(w.log, c, key);
    if key == r.key {
      RecordedIsTheWindow(limits, w, key, r.ms);
      CallSecondsAppend(w.log, c, key, SecondOf(r.ms) - limits.window);
    } else if LastCall(w.log, key).At? {
      CallSecondsAppend(w.log, c, key, SecondOf(LastCall(w.log, key).ms) - limits.window);
    }
  }

  lemma {:induction false} RunKeepsInv(limits: Limits, requests: seq<Request>, key: string)
    requires Chronological(requests)
    ensures var w := Run(limits, requests);
            && Inv(limits, w, key) && ChronologicalLog(w.log) && |w.log| == |requests|
            && forall i :: 0 <= i < |requests| ==> w.log[i].key == requests[i].key && w.log[i].ms == requests[i].ms
  {
    if requests != [] {
      var before, r := requests[..|requests| - 1], requests[|requests| - 1];
      RunKeepsInv(limits, before, key);
      NextKeepsInv(limits, Run(limits, before), r, key);
    }
  }

  /** The distinct seconds of key in (now - window, now], this call's among them. */
  function WindowSeconds(limits: Limits, log: seq<Call>, key: string, ms: nat): set<int> {
    CallSeconds(log, key, SecondOf(ms) - limits.window) + {SecondOf(ms)}
  }

  /** Refinement: in every run each call is judged on exactly the window of the full log of the calls before it. */
  lemma CountedIsTheLogs(limits: Limits, requests: seq<Request>, r: Request)
    requires Chronological(requests + [r])
    ensures var w := Run(limits, requests);
            && Run(limits, requests + [r]).log == w.log + [Call(r.key, r.ms, WindowSeconds(limits, w.log, r.key, r.ms))]
            && ChronologicalLog(w.log) && NoneLater(w.log, r.ms) && |w.log| == |requests|
  {
    BeforeTheNext(limits, requests, r);
    NextLog(limits, Run(limits, requests), r);
    RunAppend(limits, requests, r);
  }

  lemma BeforeTheNext(limits: Limits, requests: seq<Request>, r: Request)
    requires Chronological(requests + [r])
    ensures var w := Run(limits, requests);
            Inv(limits, w, r.key) && ChronologicalLog(w.log) && NoneLater(w.log, r.ms) && |w.log| == |requests|
  {
    ChronologicalPrefix(requests, r);
    RunKeepsInv(limits, requests, r.key);
  }

  lemma NextLog(limits: Limits, w: World, r: Request)
    requires Inv(limits, w, r.key) && ChronologicalLog(w.log) && NoneLater(w.log, r.ms)
    ensures Next(limits, w, r).log == w.log + [Call(r.key, r.ms, WindowSeconds(limits, w.log, r.key, r.ms))]
  {
    RecordedIsTheWindow(limits, w, r.key, r.ms);
  }

  lemma RunAppend(limits: Limits, requests: seq<Request>, r: Request)
    ensures Run(limits, requests + [r]) == Next(limits, Run(limits, requests), r)
  {
    assert (requests + [r])[..|requests|] == requests;
  }

  lemma ChronologicalPrefix(requests: seq<Request>, r: Request)
    requires Chronological(requests + [r])
    ensures Chronological(requests)
    ensures forall i :: 0 <= i < |requests| ==> requests[i].ms <= r.ms
  {
    assert forall i :: 0 <= i < |requests| ==> (requests + [r])[i] == requests[i];
    assert (requests + [r])[|requests|] == r;
  }

  /** The distinct seconds in (until - window, until] with an allowed call of key. */
  function AllowedSeconds(limits: Limits, log: seq<Call>, key: string, until: int): set<int> {
    if log == [] then {}
    else
      var c := log[|log| - 1];
      AllowedSeconds(limits, log[..|log| - 1], key, until)
      + (if c.key == key && Allowed(limits, c) && until - limits.window < SecondOf(c.ms) <= until
         then {SecondOf(c.ms)} else {})
  }

  lemma {:induction false} AllowedWereCalled(limits: Limits, log: seq<Call>, key: string, until: int, from: int)
    requires from <= until - limits.window
    ensures AllowedSeconds(limits, log, key, until) <= CallSeconds(log, key, from)
  {
    if log != [] {
      AllowedWereCalled(limits, log[..|log| - 1], key, until, from);
    }
  }

  lemma {:induction false} SubsetIsNoLarger(a: set<int>, b: set<int>)
    requires a <= b
    ensures |a| <= |b|
  {
    assert b == a + (b - a);
  }

  lemma AllowedSecondsAppend(limits: Limits, log: seq<Call>, c: Call, key: string, until: int)
    ensures AllowedSeconds(limits, log + [c], key, until)
         == AllowedSeconds(limits, log, key, until)
            + (if c.key == key && Allowed(limits, c) && until - limits.window < SecondOf(c.ms) <= until
               then {SecondOf(c.ms)} else {})
  {
    assert (log + [c])[..|log|] == log;
  }

  lemma OneMoreIsLimited(limits: Limits, log: seq<Call>, key: string, ms: nat, until: int)
    requires |AllowedSeconds(limits, log, key, until)| <= (if limits.limit < 0 then 0 else limits.limit)
    requires AllowedBy(limits, WindowSeconds(limits, log, key, ms)) && until - limits.window < SecondOf(ms) <= until
    ensures |AllowedSeconds(limits, log, key, until) + {SecondOf(ms)}| <= limits.limit
  {
    var from := SecondOf(ms) - limits.window;
    AllowedWereCalled(limits, log, key, until, from);
    SubsetIsNoLarger(AllowedSeconds(limits, log, key, until) + {SecondOf(ms)},
                     CallSeconds(log, key, from) + {SecondOf(ms)});
  }

  predicate CountsCallAt(limits: Limits, log: seq<Call>, key: string, ms: nat, at: nat) {
    at / 1000 in WindowSeconds(limits, log, key, ms)
  }

  lemma {:induction false} CalledSeconds(log: seq<Call>, key: string, from: int, second: int)
    ensures second in CallSeconds(log, key, from)
            <==> second > from && exists i :: 0 <= i < |log| && log[i].key == key && log[i].ms / 1000 == second
  {
    if log != [] {
      var before := log[..|log| - 1];
      CalledSeconds(before, key, from, second);
      if exists i :: 0 <= i < |before| && before[i].key == key && before[i].ms / 1000 == second {
        var i :| 0 <= i < |before| && before[i].key == key && before[i].ms / 1000 == second;
        assert log[i] == before[i];
      }
      if exists i :: 0 <= i < |log| && log[i].key == key && log[i].ms / 1000 == second {
        var i :| 0 <= i < |log| && log[i].key == key && log[i].ms / 1000 == second;
        assert i < |before| ==> before[i] == log[i];
      }
    }
  }

  /** The window in milliseconds: a call of the last window - 1 seconds is counted, one of more than a window ago is
      not, unless it is the same second as one that is. */
  lemma CountsTheWindow(limits: Limits, log: seq<Call>, key: string, ms: nat, i: nat)
    requires i < |log| && log[i].key == key && log[i].ms <= ms && limits.window >= 1
    ensures log[i].ms >= ms - 1000 * (limits.window - 1) ==> CountsCallAt(limits, log, key, ms, log[i].ms)
    ensures log[i].ms <= ms - 1000 * limits.window ==> !CountsCallAt(limits, log, key, ms, log[i].ms)
  {
    CalledSeconds(log, key, SecondOf(ms) - limits.window, log[i].ms / 1000);
  }

  /** Over every run, the allowed calls of a key in any interval as long as the window fall in at most `limit`
      distinct seconds. */
  lemma {:induction false} AllowedSecondsAreLimited(limits: Limits, requests: seq<Request>, key: string, until: int)
    requires Chronological(requests)
    ensures |AllowedSeconds(limits, Run(limits, requests).log, key, until)|
            <= (if limits.limit < 0 then 0 else limits.limit)
  {
    if requests != [] {
      var before, r := requests[..|requests| - 1], requests[|requests| - 1];
      assert before + [r] == requests;
      ChronologicalPrefix(before, r);
      AllowedSecondsAreLimited(limits, before, key, until);
      CountedIsTheLogs(limits, before, r);
      var log := Run(limits, before).log;
      var c := Call(r.key, r.ms, WindowSeconds(limits, log, r.key, r.ms));
      AllowedSecondsAppend(limits, log, c, key, until);
      if c.key == key && Allowed(limits, c) && until - limits.window < SecondOf(c.ms) <= until {
        OneMoreIsLimited(limits, log, key, r.ms, until);
      }
    }
  }

  /** A call repeated within its second is judged on the same seconds. */
  lemma SameSecondSameVerdict(limits: Limits, requests: seq<Request>, r: Request, again: nat)
    requires Chronological(requests + [r] + [Request(r.key, again)])
    requires SecondOf(again) == SecondOf(r.ms)
    ensures var log := Run(limits, requests + [r] + [Request(r.key, again)]).log;
            |log| == |requests| + 2 && log[|requests| + 1].counted == log[|requests|].counted
  {
    var r' := Request(r.key, again);
    ChronologicalPrefix(requests + [r], r');
    ChronologicalPrefix(requests, r);
    CountedIsTheLogs(limits, requests, r);
    CountedIsTheLogs(limits, requests + [r], r');
    RunKeepsInv(limits, requests, r.key);
    var log := Run(limits, requests).log;
    var c := Call(r.key, r.ms, WindowSeconds(limits, log, r.key, r.ms));
    CallSecondsAppend(log, c, r.key, SecondOf(r.ms) - limits.window);
  }

  // ---- Calls, not seconds ----------------------------------------------------------------------

  /** The allowed calls of key in (until - window, until]. */
  function AllowedCalls(limits: Limits, log: seq<Call>, key: string, until: int): nat {
    if log == [] then 0
    else
      var c := log[|log| - 1];
      AllowedCalls(limits, log[..|log| - 1], key, until)
      + (if c.key == key && Allowed(limits, c) && until - limits.window < SecondOf(c.ms) <= until then 1 else 0)
  }

  predicate CallsWithin(limits: Limits, requests: seq<Request>, key: string, until: int) {
    AllowedCalls(limits, Run(limits, requests).log, key, until) <= (if limits.limit < 0 then 0 else limits.limit)
  }

  /** What the name promises: in every run no more than `limit` allowed calls in any interval as long as the window. */
  ghost predicate LimitsCalls(limits: Limits) {
    forall requests, key, until :: Chronological(requests) ==> CallsWithin(limits, requests, key, until)
  }

  lemma {:induction false} NoneAllowed(limits: Limits, requests: seq<Request>, key: string, until: int)
    requires limits.limit <= 0 || limits.window <= 0
    ensures AllowedCalls(limits, Run(limits, requests).log, key, until) == 0
  {
    if requests != [] {
      var before, r := requests[..|requests| - 1], requests[|requests| - 1];
      NoneAllowed(limits, before, key, until);
      var w := Run(limits, before);
      assert Run(limits, requests).log[..|w.log|] == w.log;
      OneIsCounted(limits, w.store, r.key, r.ms);
    }
  }

  /** A call counts at least itself. */
  lemma OneIsCounted(limits: Limits, store: Store, key: string, ms: nat)
    ensures |Recorded(limits, store, key, ms)| >= 1
  {
    assert SecondOf(ms) in Recorded(limits, store, key, ms);
  }

  function Burst(key: string, n: nat): (requests: seq<Request>)
    ensures |requests| == n && forall i :: 0 <= i < n ==> requests[i] == Request(key, 0)
  {
    if n == 0 then [] else Burst(key, n - 1) + [Request(key, 0)]
  }

  lemma {:induction false} BurstSeconds(log: seq<Call>, key: string, from: int)
    requires forall i :: 0 <= i < |log| ==> log[i].ms == 0
    ensures CallSeconds(log, key, from) <= {0}
  {
    if log != [] {
      BurstSeconds(log[..|log| - 1], key, from);
    }
  }

  lemma BurstIsCountedOnce(limits: Limits, log: seq<Call>, key: string)
    requires forall i :: 0 <= i < |log| ==> log[i].ms == 0
    ensures WindowSeconds(limits, log, key, 0) == {0}
  {
    BurstSeconds(log, key, -limits.window);
  }

  /** However many calls come in one second, each is judged on that one second. */
  lemma {:induction false} BurstIsAllowed(limits: Limits, key: string, n: nat)
    requires limits.limit >= 1 && limits.window >= 1
    ensures var log := Run(limits, Burst(key, n)).log;
            AllowedCalls(limits, log, key, 0) == n && forall i :: 0 <= i < |log| ==> log[i].ms == 0
  {
    if n > 0 {
      BurstIsAllowed(limits, key, n - 1);
      BurstGoesOn(limits, key, n - 1);
      OneMoreAllowed(limits, Run(limits, Burst(key, n - 1)).log, key);
    }
  }

  lemma BurstGoesOn(limits: Limits, key: string, n: nat)
    requires forall i :: 0 <= i < |Run(limits, Burst(key, n)).log| ==> Run(limits, Burst(key, n)).log[i].ms == 0
    ensures Run(limits, Burst(key, n + 1)).log == Run(limits, Burst(key, n)).log + [Call(key, 0, {0})]
  {
    CountedIsTheLogs(limits, Burst(key, n), Request(key, 0));
    BurstIsCountedOnce(limits, Run(limits, Burst(key, n)).log, key);
  }

  lemma OneMoreAllowed(limits: Limits, log: seq<Call>, key: string)
    requires limits.limit >= 1 && limits.window >= 1
    ensures AllowedCalls(limits, log + [Call(key, 0, {0})], key, 0) == AllowedCalls(limits, log, key, 0) + 1
  {
    assert (log + [Call(key, 0, {0})])[..|log|] == log;
  }

  /** It limits calls if and only if it lets none through at all: with a limit and a window of at least one, `limit` + 1
      calls in one second are all allowed. */
  lemma LimitsCallsIff(limits: Limits)
    ensures LimitsCalls(limits) <==> limits.limit <= 0 || limits.window <= 0
  {
    if limits.limit <= 0 || limits.window <= 0 {
      forall requests, key, until | Chronological(requests) ensures CallsWithin(limits, requests, key, until) {
        NoneAllowed(limits, requests, key, until);
      }
    } else {
      var requests := Burst("client", limits.limit + 1);
      BurstIsAllowed(limits, "client", limits.limit + 1);
      assert Chronological(requests) && !CallsWithin(limits, requests, "client", 0);
    }
  }

  /** The calls of key come in pairwise different seconds. */
  predicate OneASecond(log: seq<Call>, key: string) {
    forall i, j :: 0 <= i < j < |log| && log[i].key == key && log[j].key == key ==>
      SecondOf(log[i].ms) != SecondOf(log[j].ms)
  }

  predicate Called(log: seq<Call>, key: string, second: int) {
    exists i :: 0 <= i < |log| && log[i].key == key && SecondOf(log[i].ms) == second
  }

  lemma {:induction false} AllowedSecondsWereCalled(limits: Limits, log: seq<Call>, key: string, until: int,
                                                    second: int)
    requires second in AllowedSeconds(limits, log, key, until)
    ensures Called(log, key, second)
  {
    var before, c := log[..|log| - 1], log[|log| - 1];
    if second in AllowedSeconds(limits, before, key, until) {
      AllowedSecondsWereCalled(limits, before, key, until, second);
      var i :| 0 <= i < |before| && before[i].key == key && SecondOf(before[i].ms) == second;
      assert log[i] == before[i];
    } else {
      assert log[|log| - 1] == c;
    }
  }

  lemma OneMoreElement(s: set<int>, x: int)
    requires x !in s
    ensures |s + {x}| == |s| + 1
  {
  }

  lemma {:induction false} OneCallASecond(limits: Limits, log: seq<Call>, key: string, until: int)
    requires OneASecond(log, key)
    ensures AllowedCalls(limits, log, key, until) == |AllowedSeconds(limits, log, key, until)|
  {
    if log != [] {
      var before, c := log[..|log| - 1], log[|log| - 1];
      OneCallASecond(limits, before, key, until);
      if c.key == key {
        LastSecondIsNew(limits, log, key, until);
        OneMoreElement(AllowedSeconds(limits, before, key, until), SecondOf(c.ms));
      }
    }
  }

  lemma LastSecondIsNew(limits: Limits, log: seq<Call>, key: string, until: int)
    requires log != [] && OneASecond(log, key) && log[|log| - 1].key == key
    ensures SecondOf(log[|log| - 1].ms) !in AllowedSeconds(limits, log[..|log| - 1], key, until)
  {
    var before := log[..|log| - 1];
    forall second | second in AllowedSeconds(limits, before, key, until) ensures second != SecondOf(log[|log| - 1].ms) {
      AllowedSecondsWereCalled(limits, before, key, until, second);
      var i :| 0 <= i < |before| && before[i].key == key && SecondOf(before[i].ms) == second;
      assert log[i] == before[i];
    }
  }

  predicate OneRequestASecond(requests: seq<Request>, key: string) {
    forall i, j :: 0 <= i < j < |requests| && requests[i].key == key && requests[j].key == key ==>
      SecondOf(requests[i].ms) != SecondOf(requests[j].ms)
  }

  /** It does limit the calls of a client that never calls twice in one second. */
  lemma SpacedCallsAreLimited(limits: Limits, requests: seq<Request>, key: string, until: int)
    requires Chronological(requests) && OneRequestASecond(requests, key)
    ensures CallsWithin(limits, requests, key, until)
  {
    RunKeepsInv(limits, requests, key);
    AllowedSecondsAreLimited(limits, requests, key, until);
    OneCallASecond(limits, Run(limits, requests).log, key, until);
  }
}
