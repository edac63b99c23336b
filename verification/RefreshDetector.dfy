/** The capacity detector: a loop that takes the pending refresh requests, probes hosts, and waits to be woken by a
    request or by a retry timer. Every request, callback and continuation is one step. */
module RefreshDetector {
  import opened Basics

  type Host = string

  const RETRY_MIN_MS := 1_000
  const RETRY_MAX_MS := 30_000

  datatype Outcome = Retry | Settled

  datatype Reason = Requested | TimedRetry | Aborted

  /** What a pass probes: every host, or the named ones. */
  datatype Pass = Pass(all: bool, hosts: set<Host>) {
    predicate Covers(other: Pass) {
      (other.all ==> all) && (all || other.hosts <= hosts)
    }
  }

  datatype Stage =
    | Top                                                 // about to test the signal and take the requests
    | Probing(pass: Pass)
    | Blocked(outcome: Outcome, delay: Option<int>)       // inside waitForRefresh, waiter registered
    | Woken(outcome: Outcome, reason: Reason)             // resolved; the continuation has not run yet
    | Over

  datatype State = State(pending: Pass, aborted: bool, retryMs: int, stage: Stage)

  const NONE := Pass(false, {})

  /** The first pass probes everything. */
  const INITIAL := State(Pass(true, {}), false, RETRY_MIN_MS, Top)

  datatype Event =
    | Request(host: Option<Host>)
    | Take                          // the loop head
    | Probed(outcome: Outcome)      // refreshCapacities has returned
    | TimerFires
    | Continue                      // the code after the wait
    | Abort

  function Doubled(ms: int): int {
    if ms * 2 < RETRY_MAX_MS then ms * 2 else RETRY_MAX_MS
  }

  function Wake(s: State, reason: Reason): State {
    if s.stage.Blocked? then s.(stage := Woken(s.stage.outcome, reason)) else s
  }

  function Step(s: State, e: Event): State {
    match e
    case Request(host) =>
      Wake(s.(pending := if host.None? then s.pending.(all := true)
                         else s.pending.(hosts := s.pending.hosts + {host.value})), Requested)
    case Take =>
      if !s.stage.Top? then s
      else if s.aborted then s.(stage := Over)
      else s.(pending := NONE, stage := Probing(s.pending))
    case Probed(outcome) =>
      if !s.stage.Probing? then s
      else if s.aborted then s.(stage := Over)
      else if s.pending != NONE then s.(stage := Top)
      else s.(stage := Blocked(outcome, if outcome.Retry? then Some(s.retryMs) else None))
    case TimerFires => if s.stage.Blocked? && s.stage.delay.Some? then Wake(s, TimedRetry) else s
    case Continue =>
      if !s.stage.Woken? then s
      else if s.stage.reason.TimedRetry? then
        s.(stage := Top, pending := s.pending.(all := true), retryMs := Doubled(s.retryMs))
      else if s.stage.outcome.Settled? then s.(stage := Top, retryMs := RETRY_MIN_MS)
      else s.(stage := Top)
    case Abort => Wake(s.(aborted := true), Aborted)
  }

  function After(s: State, events: seq<Event>): State
    decreases |events|
  {
    if events == [] then s else After(Step(s, events[0]), events[1..])
  }

  /** The passes a run begins, in order. */
  function Passes(s: State, events: seq<Event>): seq<Pass>
    decreases |events|
  {
    if events == [] then []
    else (if Begins(s, events[0]) then [s.pending] else []) + Passes(Step(s, events[0]), events[1..])
  }

  predicate Begins(s: State, e: Event) {
    e.Take? && s.stage.Top? && !s.aborted
  }

  /** Blocked means nothing is pending and the service runs; the next delay and any delay in use are in bounds; a delay
      is used exactly after a failed pass. */
  ghost predicate Inv(s: State) {
    && RETRY_MIN_MS <= s.retryMs <= RETRY_MAX_MS
    && (s.stage.Blocked? ==>
          && s.pending == NONE && !s.aborted
          && s.stage.delay == if s.stage.outcome.Retry? then Some(s.retryMs) else None)
    && (s.stage.Woken? && s.stage.reason.Aborted? ==> s.aborted)
    && (s.stage.Woken? && s.stage.reason.Requested? ==> s.pending != NONE)
    && (s.stage.Woken? && s.stage.reason.TimedRetry? ==> s.stage.outcome.Retry?)
  }

  lemma StepKeepsInv(s: State, e: Event)
    requires Inv(s)
    ensures Inv(Step(s, e))
  {}

  lemma {:induction false} RunKeepsInv(s: State, events: seq<Event>)
    requires Inv(s)
    ensures Inv(After(s, events))
    decreases |events|
  {
    if events == [] {
    } else {
      StepKeepsInv(s, events[0]);
      RunKeepsInv(Step(s, events[0]), events[1..]);
    }
  }

  /** In every reachable state: a blocked detector has no request pending, and every delay lies between 1 s and 30 s. */
  lemma BlockedMeansNothingPending(events: seq<Event>)
    ensures var s := After(INITIAL, events);
            && (s.stage.Blocked? ==> s.pending == NONE && !s.aborted)
            && RETRY_MIN_MS <= s.retryMs <= RETRY_MAX_MS
            && (s.stage.Blocked? && s.stage.delay.Some? ==> RETRY_MIN_MS <= s.stage.delay.value <= RETRY_MAX_MS)
  {
    RunKeepsInv(INITIAL, events);
  }

  ghost predicate Covered(want: Pass, passes: seq<Pass>) {
    exists p :: p in passes && p.Covers(want)
  }

  /** No lost request: whatever is pending stays pending until one pass that covers all of it begins. */
  lemma {:induction false} RequestsAreKept(s: State, want: Pass, events: seq<Event>)
    requires s.pending.Covers(want)
    ensures After(s, events).pending.Covers(want) || Covered(want, Passes(s, events))
    decreases |events|
  {
    if events == [] {
    } else {
      var t := Step(s, events[0]);
      var rest := Passes(t, events[1..]);
      if Begins(s, events[0]) {
        assert s.pending in [s.pending] + rest;
      } else {
        RequestsAreKept(t, want, events[1..]);
      }
    }
  }

  /** Hence a run that ends with the detector blocked has served every request made in it. */
  lemma BlockedHasServedAll(events: seq<Event>, host: Option<Host>, more: seq<Event>)
    requires var s := After(INITIAL, events); After(Step(s, Request(host)), more).stage.Blocked?
    ensures var want := if host.None? then Pass(true, {}) else Pass(false, {host.value});
            Covered(want, Passes(Step(After(INITIAL, events), Request(host)), more))
  {
    var want := if host.None? then Pass(true, {}) else Pass(false, {host.value});
    var s := Step(After(INITIAL, events), Request(host));
    RunKeepsInv(INITIAL, events);
    StepKeepsInv(After(INITIAL, events), Request(host));
    RunKeepsInv(s, more);
    RequestsAreKept(s, want, more);
  }

  // ---- the retry of a failed pass ----

  ghost predicate NoPass(s: State, events: seq<Event>) {
    Passes(s, events) == []
  }

  predicate AsksAll(events: seq<Event>) {
    exists i :: 0 <= i < |events| && events[i] == Request(None)
  }

  /** The timer wakes the blocked detector before any request or abort does. */
  predicate TimerFirst(s: State, events: seq<Event>)
    decreases |events|
  {
    s.stage.Blocked? && events != [] &&
    ((events[0].TimerFires? && s.stage.delay.Some?) || TimerFirst(Step(s, events[0]), events[1..]))
  }

  /** A failed pass is repeated in full exactly when a request for all hosts arrives before the next pass, or nothing
      was requested during it and its timer fires first. A request for one host, arriving before the timer, replaces
      the retry: the hosts that failed are then not probed again until something else asks for them. */
  lemma RetriedInFullExactly(s: State, events: seq<Event>)
    requires Inv(s) && s.stage.Probing? && !s.aborted
    requires var t := Step(s, Probed(Retry)); NoPass(t, events) && Begins(After(t, events), Take)
    ensures var t := Step(s, Probed(Retry));
            After(t, events).pending.all <==> s.pending.all || AsksAll(events) || TimerFirst(t, events)
  {
    var t := Step(s, Probed(Retry));
    StepKeepsInv(s, Probed(Retry));
    if t.stage.Blocked? { WaitingPass(t, events); } else { WokenPass(t, events); }
  }

  lemma {:induction false} WaitingPass(s: State, events: seq<Event>)
    requires Inv(s) && s.stage.Blocked? && s.stage.outcome.Retry?
    requires NoPass(s, events) && Begins(After(s, events), Take)
    ensures After(s, events).pending.all <==> AsksAll(events) || TimerFirst(s, events)
    decreases |events|
  {
    var t := Step(s, events[0]);
    StepKeepsInv(s, events[0]);
    AsksAllCons(events);
    if t.stage.Blocked? {
      WaitingPass(t, events[1..]);
    } else {
      WokenPass(t, events[1..]);
    }
  }

  lemma AsksAllCons(events: seq<Event>)
    requires events != []
    ensures AsksAll(events) <==> events[0] == Request(None) || AsksAll(events[1..])
  {
    if i :| 0 <= i < |events| && events[i] == Request(None) && i > 0 {
      assert events[1..][i - 1] == Request(None);
    }
    if i :| 0 <= i < |events[1..]| && events[1..][i] == Request(None) {
      assert events[i + 1] == Request(None);
    }
  }

  lemma {:induction false} WokenPass(s: State, events: seq<Event>)
    requires s.stage.Woken? || s.stage.Top?
    requires NoPass(s, events) && Begins(After(s, events), Take)
    ensures After(s, events).pending.all <==>
              s.pending.all || AsksAll(events) || (s.stage.Woken? && s.stage.reason.TimedRetry?)
    decreases |events|
  {
    if events == [] {
    } else {
      AsksAllCons(events);
      if Step(s, events[0]).stage.Over? {
        StaysOver(Step(s, events[0]), events[1..]);
      } else {
        WokenPass(Step(s, events[0]), events[1..]);
      }
    }
  }

  lemma {:induction false} StaysOver(s: State, events: seq<Event>)
    requires s.stage.Over?
    ensures After(s, events).stage.Over?
    decreases |events|
  {
    if events == [] {
    } else {
      StaysOver(Step(s, events[0]), events[1..]);
    }
  }

  // ---- how long it waits ----

  /** A pass that fails and is retried by its timer. */
  const FAILED_ROUND := [Take, Probed(Retry), TimerFires, Continue]

  function Rounds(k: nat): seq<Event> {
    if k == 0 then [] else FAILED_ROUND + Rounds(k - 1)
  }

  function PowerOfTwo(k: nat): (p: nat)
    ensures p >= 1
  {
    if k == 0 then 1 else 2 * PowerOfTwo(k - 1)
  }

  function Least(a: int, b: int): int { if a < b then a else b }

  lemma AfterConcat(s: State, a: seq<Event>, b: seq<Event>)
    ensures After(s, a + b) == After(After(s, a), b)
    decreases |a|
  {
    if a == [] {
      assert a + b == b;
    } else {
      assert (a + b)[1..] == a[1..] + b;
      AfterConcat(Step(s, a[0]), a[1..], b);
    }
  }

  lemma OneRound(s: State)
    requires s.stage.Top? && !s.aborted && s.retryMs > 0
    ensures After(s, FAILED_ROUND) == State(Pass(true, {}), false, Least(2 * s.retryMs, RETRY_MAX_MS), Top)
  {
    var s1 := Step(s, Take);
    var s2 := Step(s1, Probed(Retry));
    var s3 := Step(s2, TimerFires);
    var e := FAILED_ROUND;
    assert e[1..] == [Probed(Retry), TimerFires, Continue] && e[2..] == [TimerFires, Continue] && e[3..] == [Continue];
    assert e[1..][1..] == e[2..] && e[2..][1..] == e[3..] && e[3..][1..] == [];
    assert After(s3, e[3..]) == Step(s3, Continue);
    assert After(s2, e[2..]) == After(s3, e[3..]);
    assert After(s1, e[1..]) == After(s2, e[2..]);
  }

  /** The delay doubles with every failed round, from one second up to thirty, and every round probes all hosts. */
  lemma {:induction false} DelayDoubles(s: State, k: nat)
    requires s.stage.Top? && !s.aborted && s.pending == Pass(true, {}) && RETRY_MIN_MS <= s.retryMs <= RETRY_MAX_MS
    ensures After(s, Rounds(k)) ==
            State(Pass(true, {}), false, Least(s.retryMs * PowerOfTwo(k), RETRY_MAX_MS), Top)
    decreases k
  {
    if k == 0 {
    } else {
      AfterConcat(s, FAILED_ROUND, Rounds(k - 1));
      OneRound(s);
      DelayDoubles(After(s, FAILED_ROUND), k - 1);
      DoubleOnce(s.retryMs, PowerOfTwo(k - 1));
    }
  }

  lemma DoubleOnce(ms: int, p: nat)
    requires 0 < ms <= RETRY_MAX_MS && p >= 1
    ensures Least(Least(2 * ms, RETRY_MAX_MS) * p, RETRY_MAX_MS) == Least(ms * (2 * p), RETRY_MAX_MS)
  {
    assert ms * (2 * p) == (2 * ms) * p;
    if 2 * ms >= RETRY_MAX_MS {
      assert RETRY_MAX_MS * p >= RETRY_MAX_MS;
      assert (2 * ms) * p >= RETRY_MAX_MS * p;
    }
  }

  /** So after k failed rounds in a row the next failure is retried after 2^k seconds, at most thirty. */
  lemma BackoffExactly(k: nat)
    ensures var s := After(After(INITIAL, Rounds(k)), [Take, Probed(Retry)]);
            s.stage == Blocked(Retry, Some(Least(1000 * PowerOfTwo(k), 30_000)))
  {
    DelayDoubles(INITIAL, k);
    var s := After(INITIAL, Rounds(k));
    assert [Take, Probed(Retry)][1..] == [Probed(Retry)] && [Probed(Retry)][1..] == [];
    assert After(Step(s, Take), [Probed(Retry)]) == Step(Step(s, Take), Probed(Retry));
  }

  /** A pass that succeeds is not retried, and once a request follows it the delay is one second again. */
  lemma SuccessResetsDelay(s: State, host: Option<Host>)
    requires Inv(s) && s.stage.Blocked? && s.stage.outcome.Settled?
    ensures s.stage.delay.None?
    ensures Step(Step(s, Request(host)), Continue).stage.Top?
    ensures Step(Step(s, Request(host)), Continue).retryMs == 1000
  {}

  /** A request during the delay of a retry starts the next pass at once and leaves the delay as it is. */
  lemma RequestCutsDelayShort(s: State, host: Option<Host>)
    requires s.stage.Blocked? && s.stage.outcome.Retry?
    ensures var t := Step(Step(s, Request(host)), Continue);
            t.stage.Top? && t.retryMs == s.retryMs && t.pending == Step(s, Request(host)).pending
  {}

  /** The detector's own next steps once it has been aborted. */
  function LastSteps(stage: Stage): seq<Event> {
    match stage
    case Top => [Take]
    case Probing(_) => [Probed(Settled)]
    case Woken(_, _) => [Continue, Take]
    case _ => []
  }

  /** An aborted detector ends with its next steps, and begins no pass, whatever else happens. */
  lemma AbortEnds(s: State, events: seq<Event>)
    requires Inv(s) && s.aborted
    ensures After(s, LastSteps(s.stage)).stage.Over?
    ensures !s.stage.Probing? ==> !After(s, events).stage.Probing?
  {
    var last := LastSteps(s.stage);
    if s.stage.Woken? {
      assert last[1..] == [Take] && [Take][1..] == [];
      assert After(Step(s, Continue), [Take]) == Step(Step(s, Continue), Take);
    } else if last != [] {
      assert last[1..] == [];
    }
    if !s.stage.Probing? { NoPassBegins(s, events); }
  }

  lemma {:induction false} NoPassBegins(s: State, events: seq<Event>)
    requires s.aborted && !s.stage.Probing?
    ensures !After(s, events).stage.Probing?
    decreases |events|
  {
    if events == [] {
    } else {
      NoPassBegins(Step(s, events[0]), events[1..]);
    }
  }

  // ---- the same steps on mutable state ----

  class CapacityDetector {
    var refreshAllRequested: bool
    var requestedHostIds: set<Host>
    var aborted: bool
    var retryMs: int
    var stage: Stage

    function View(): State
      reads this
    {
      State(Pass(refreshAllRequested, requestedHostIds), aborted, retryMs, stage)
    }

    ghost predicate Valid()
      reads this
    {
      Inv(View())
    }

    constructor ()
      ensures View() == INITIAL && Valid()
    {
      refreshAllRequested, requestedHostIds := true, {};
      aborted, retryMs, stage := false, RETRY_MIN_MS, Top;
    }

    /** Afterwards the request is pending and the detector is not blocked. */
    method RequestRefresh(hostId: Option<Host>)
      requires Valid()
      modifies this
      ensures View() == Step(old(View()), Request(hostId)) && Valid()
      ensures !stage.Blocked? && if hostId.None? then refreshAllRequested else hostId.value in requestedHostIds
    {
      StepKeepsInv(View(), Request(hostId));
      if hostId.None? {
        refreshAllRequested := true;
      } else {
        requestedHostIds := requestedHostIds + {hostId.value};
      }
      if stage.Blocked? {
        stage := Woken(stage.outcome, Requested);
      }
    }

    /** The pass covers everything that was requested. */
    method BeginPass()
      requires Valid() && stage.Top?
      modifies this
      ensures View() == Step(old(View()), Take) && Valid()
      ensures stage.Probing? ==> stage.pass.Covers(old(View()).pending)
    {
      StepKeepsInv(View(), Take);
      if aborted {
        stage := Over;
        return;
      }
      stage := Probing(Pass(refreshAllRequested, requestedHostIds));
      refreshAllRequested, requestedHostIds := false, {};
    }

    /** After refreshCapacities: loop at once if something was requested meanwhile, else wait. */
    method AfterProbe(outcome: Outcome)
      requires Valid() && stage.Probing?
      modifies this
      ensures View() == Step(old(View()), Probed(outcome)) && Valid()
      ensures stage.Blocked? ==> !refreshAllRequested && requestedHostIds == {} && !aborted
    {
      StepKeepsInv(View(), Probed(outcome));
      if aborted {
        stage := Over;
      } else if refreshAllRequested || requestedHostIds != {} {
        stage := Top;
      } else {
        stage := Blocked(outcome, if outcome.Retry? then Some(retryMs) else None);
      }
    }

    method AfterWait()
      requires Valid() && stage.Woken?
      modifies this
      ensures View() == Step(old(View()), Continue) && Valid()
      ensures RETRY_MIN_MS <= retryMs <= RETRY_MAX_MS
    {
      StepKeepsInv(View(), Continue);
      if stage.reason.TimedRetry? {
        refreshAllRequested := true;
        retryMs := if retryMs * 2 < RETRY_MAX_MS then retryMs * 2 else RETRY_MAX_MS;
      } else if stage.outcome.Settled? {
        retryMs := RETRY_MIN_MS;
      }
      stage := Top;
    }
  }
}
