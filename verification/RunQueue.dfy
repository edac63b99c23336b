/** The script queue of a browser runtime. Each submission is chained behind the previous one's promise; a script that
    fails or exits 124 closes the runtime before its promise settles. */
module RunQueue {
  import opened Basics

  const TIMED_OUT := 124

  datatype Result = Refused | Completed(exitCode: int) | Failed {
    /** The outcomes after which the runtime must not run anything else. */
    predicate IsFatal() {
      Failed? || (Completed? && exitCode == TIMED_OUT)
    }
  }

  datatype Stage = Queued | Executing | Closing(result: Result) | Settled(result: Result) {
    /** The script was handed to the browser, now or earlier. */
    predicate Began() {
      !Queued? && this != Settled(Refused)
    }
  }

  /** Jobs in submission order. */
  datatype State = State(jobs: seq<Stage>, closed: bool, childDied: bool)

  const INITIAL := State([], false, false)

  datatype Event =
    | Submit
    | Begin(i: nat, aborted: bool)      // the chained callback of job i; aborted: its own deadline has passed
    | Exit(i: nat, result: Result)      // execute and decodeOutput have returned or thrown
    | Closed(i: nat)                    // the close awaited by job i has settled
    | Close                             // close() called from outside
    | ChildDies

  predicate Chained(s: State, i: nat) {
    i < |s.jobs| && (i == 0 || s.jobs[i - 1].Settled?)
  }

  function Set(s: State, i: nat, stage: Stage): State
    requires i < |s.jobs|
  {
    s.(jobs := s.jobs[i := stage])
  }

  function Step(s: State, e: Event): State {
    match e
    case Submit => s.(jobs := s.jobs + [Queued])
    case Begin(i, aborted) =>
      if !Chained(s, i) || !s.jobs[i].Queued? then s
      else Set(s, i, if aborted || s.closed || s.childDied then Settled(Refused) else Executing)
    case Exit(i, result) =>
      if i >= |s.jobs| || !s.jobs[i].Executing? || result.Refused? then s
      else if result.IsFatal() then Set(s.(closed := true), i, Closing(result))
      else Set(s, i, Settled(result))
    case Closed(i) =>
      if i >= |s.jobs| || !s.jobs[i].Closing? then s else Set(s, i, Settled(s.jobs[i].result))
    case Close => s.(closed := true)
    case ChildDies => s.(childDied := true)
  }

  function After(s: State, events: seq<Event>): State
    decreases |events|
  {
    if events == [] then s else After(Step(s, events[0]), events[1..])
  }

  /** Settled jobs, then at most one that is not queued, then queued jobs. */
  ghost predicate InOrder(s: State) {
    forall i, j | 0 <= i < j < |s.jobs| && !s.jobs[j].Queued? :: s.jobs[i].Settled?
  }

  /** A fatal result, settled or still closing, has closed the runtime and is the last one that began. */
  ghost predicate FatalIsLast(s: State) {
    && (forall i | 0 <= i < |s.jobs| && s.jobs[i].Closing? :: s.jobs[i].result.IsFatal())
    && (forall i | 0 <= i < |s.jobs| && Fatal(s.jobs[i]) :: s.closed)
    && (forall i, j | 0 <= i < j < |s.jobs| && Fatal(s.jobs[i]) :: !s.jobs[j].Began())
  }

  predicate Fatal(stage: Stage) {
    (stage.Closing? || stage.Settled?) && stage.result.IsFatal()
  }

  ghost predicate Inv(s: State) {
    InOrder(s) && FatalIsLast(s)
  }

  /** What a run may do to jobs already submitted: a settled job keeps its result; once the runtime is closed or a child
      has died, nothing begins. */
  ghost predicate Onward(s: State, t: State) {
    && |s.jobs| <= |t.jobs|
    && (s.closed ==> t.closed) && (s.childDied ==> t.childDied)
    && (forall i | 0 <= i < |s.jobs| && s.jobs[i].Settled? :: t.jobs[i] == s.jobs[i])
    && (s.closed || s.childDied ==>
          forall i | 0 <= i < |t.jobs| && t.jobs[i].Began() :: i < |s.jobs| && s.jobs[i].Began())
  }

  /** Changing job i keeps the order when everything before it has settled and everything after it is queued. */
  lemma SetKeepsInOrder(s: State, i: nat, stage: Stage)
    requires InOrder(s) && Chained(s, i) && !stage.Queued?
    requires !s.jobs[i].Settled? || stage == s.jobs[i]
    ensures InOrder(Set(s, i, stage))
    ensures forall j | 0 <= j < i :: s.jobs[j].Settled?
    ensures !s.jobs[i].Settled? ==> forall j | i < j < |s.jobs| :: s.jobs[j].Queued?
  {
    if i > 0 { assert !s.jobs[i - 1].Queued?; }
    assert forall j | 0 <= j < i :: s.jobs[j].Settled?;
  }

  lemma BeginKeepsInv(s: State, i: nat, aborted: bool)
    requires Inv(s)
    ensures Inv(Step(s, Begin(i, aborted))) && Onward(s, Step(s, Begin(i, aborted)))
  {
    if Chained(s, i) && s.jobs[i].Queued? {
      SetKeepsInOrder(s, i, if aborted || s.closed || s.childDied then Settled(Refused) else Executing);
    }
  }

  lemma ExitKeepsInv(s: State, i: nat, result: Result)
    requires Inv(s)
    ensures Inv(Step(s, Exit(i, result))) && Onward(s, Step(s, Exit(i, result)))
  {
    if i < |s.jobs| && s.jobs[i].Executing? && !result.Refused? {
      SetKeepsInOrder(s, i, if result.IsFatal() then Closing(result) else Settled(result));
    }
  }

  lemma ClosedKeepsInv(s: State, i: nat)
    requires Inv(s)
    ensures Inv(Step(s, Closed(i))) && Onward(s, Step(s, Closed(i)))
  {
    if i < |s.jobs| && s.jobs[i].Closing? {
      SetKeepsInOrder(s, i, Settled(s.jobs[i].result));
    }
  }

  lemma StepKeepsInv(s: State, e: Event)
    requires Inv(s)
    ensures Inv(Step(s, e)) && Onward(s, Step(s, e))
  {
    match e
    case Begin(i, aborted) => BeginKeepsInv(s, i, aborted);
    case Exit(i, result) => ExitKeepsInv(s, i, result);
    case Closed(i) => ClosedKeepsInv(s, i);
    case Submit =>
    case Close =>
    case ChildDies =>
  }

  lemma {:induction false} RunKeepsInv(s: State, events: seq<Event>)
    requires Inv(s)
    ensures Inv(After(s, events)) && Onward(s, After(s, events))
    decreases |events|
  {
    if events == [] {
    } else {
      StepKeepsInv(s, events[0]);
      RunKeepsInv(Step(s, events[0]), events[1..]);
    }
  }

  /** Exclusive and in order, over every run: while one script is in progress, everything submitted before it has
      settled and nothing submitted after it has begun. */
  lemma FirstInFirstOut(events: seq<Event>, i: nat)
    requires var s := After(INITIAL, events); i < |s.jobs| && (s.jobs[i].Executing? || s.jobs[i].Closing?)
    ensures forall j | 0 <= j < i :: After(INITIAL, events).jobs[j].Settled?
    ensures forall j | i < j < |After(INITIAL, events).jobs| :: After(INITIAL, events).jobs[j].Queued?
  {
    RunKeepsInv(INITIAL, events);
  }

  /** Fail-stop, over every run and every continuation of it: once script i has failed or exited 124, no script
      submitted after it is ever handed to the browser, not even one submitted later. */
  lemma FailStop(events: seq<Event>, more: seq<Event>, i: nat, j: nat)
    requires var s := After(INITIAL, events);
             i < |s.jobs| &&
             s.jobs[i] in {Closing(Failed), Settled(Failed), Closing(Completed(124)), Settled(Completed(124))}
    requires i < j < |After(After(INITIAL, events), more).jobs|
    ensures !After(After(INITIAL, events), more).jobs[j].Began()
  {
    RunKeepsInv(INITIAL, events);
    RunKeepsInv(After(INITIAL, events), more);
  }

  /** The same after a close, or after the death of a child. */
  lemma ClosedStaysClosed(events: seq<Event>, e: Event, more: seq<Event>, i: nat)
    requires e.Close? || e.ChildDies?
    requires var s := Step(After(INITIAL, events), e); i < |After(s, more).jobs| && After(s, more).jobs[i].Began()
    ensures i < |After(INITIAL, events).jobs| && After(INITIAL, events).jobs[i].Began()
  {
    RunKeepsInv(INITIAL, events);
    StepKeepsInv(After(INITIAL, events), e);
    RunKeepsInv(Step(After(INITIAL, events), e), more);
  }

  /** A submission joins the end of the queue; nothing else changes. */
  lemma SubmitExactly(s: State)
    ensures Step(s, Submit) == State(s.jobs + [Queued], s.closed, s.childDied)
  {}

  /** A script that fails or exits 124 closes the runtime and settles only after that; any other exit just settles
      it. */
  lemma ExitExactly(s: State, i: nat, result: Result)
    requires i < |s.jobs| && s.jobs[i].Executing? && !result.Refused?
    ensures var t := Step(s, Exit(i, result));
            if result == Failed || result == Completed(124)
            then
              && t.closed && t.jobs == s.jobs[i := Closing(result)]
              && Step(t, Closed(i)).jobs == s.jobs[i := Settled(result)]
            else t.closed == s.closed && t.jobs == s.jobs[i := Settled(result)]
  {
    assert s.jobs[i := Closing(result)][i := Settled(result)] == s.jobs[i := Settled(result)];
  }

  // ---- who is refused, and whose result a job gets ----

  /** At this moment the turn of job i comes. */
  predicate Turn(s: State, e: Event, i: nat) {
    e.Begin? && e.i == i && Chained(s, i) && s.jobs[i].Queued?
  }

  /** A script whose turn comes is handed to the browser, unless its deadline has passed, the runtime is closed, or a
      child has died; then it is refused. Nobody else's state changes. */
  lemma TurnExactly(s: State, i: nat, aborted: bool)
    requires Turn(s, Begin(i, aborted), i)
    ensures var t := Step(s, Begin(i, aborted));
            && (t.jobs[i].Executing? <==> !aborted && !s.closed && !s.childDied)
            && (t.jobs[i] == Settled(Refused) <==> aborted || s.closed || s.childDied)
            && |t.jobs| == |s.jobs| && t.closed == s.closed && t.childDied == s.childDied
            && forall j | 0 <= j < |s.jobs| && j != i :: t.jobs[j] == s.jobs[j]
  {}

  /** Its turn came at event k, too late: after its deadline, a close, or the death of a child. */
  ghost predicate CameTooLate(events: seq<Event>, i: nat, k: nat)
    requires k < |events|
  {
    var s := After(INITIAL, events[..k]);
    Turn(s, events[k], i) && (events[k].aborted || s.closed || s.childDied)
  }

  /** Whose result: refused when the turn came too late, else the result its own script exited with. */
  ghost predicate Earned(events: seq<Event>, i: nat, result: Result) {
    if result.Refused? then exists k :: 0 <= k < |events| && CameTooLate(events, i, k)
    else Exit(i, result) in events
  }

  lemma {:induction false} AfterLast(s: State, events: seq<Event>)
    requires events != []
    ensures After(s, events) == Step(After(s, events[..|events| - 1]), events[|events| - 1])
    decreases |events|
  {
    if |events| == 1 {
    } else {
      AfterLast(Step(s, events[0]), events[1..]);
      assert events[1..][..|events| - 2] == events[..|events| - 1][1..];
    }
  }

  /** Over every run: a script is refused only because its turn came too late, and any other result is its own. */
  lemma {:induction false} ResultsAreEarned(events: seq<Event>, i: nat)
    requires var s := After(INITIAL, events); i < |s.jobs| && (s.jobs[i].Settled? || s.jobs[i].Closing?)
    ensures Earned(events, i, After(INITIAL, events).jobs[i].result)
    decreases |events|
  {
    if events == [] {
    } else {
      var k := |events| - 1;
      var shorter, e := events[..k], events[k];
      var s, result := After(INITIAL, shorter), After(INITIAL, events).jobs[i].result;
      AfterLast(INITIAL, events);
      RunKeepsInv(INITIAL, shorter);
      if i < |s.jobs| && (s.jobs[i].Settled? || s.jobs[i].Closing?) {
        ResultsAreEarned(shorter, i);
        EarnedLater(events, i, result);
      } else {
        JustSettled(s, e, i);
        if e.Begin? {
          assert CameTooLate(events, i, k);
        }
      }
    }
  }

  /** A job that has just been settled, or begun to close, was refused in its turn, or its script has exited. */
  lemma JustSettled(s: State, e: Event, i: nat)
    requires Inv(s)
    requires var t := Step(s, e); i < |t.jobs| && (t.jobs[i].Settled? || t.jobs[i].Closing?)
    requires i < |s.jobs| ==> !s.jobs[i].Settled? && !s.jobs[i].Closing?
    ensures var result := Step(s, e).jobs[i].result;
            if e.Begin? then result == Refused && Turn(s, e, i) && (e.aborted || s.closed || s.childDied)
            else e == Exit(i, result) && !result.Refused?
  {}

  lemma EarnedLater(events: seq<Event>, i: nat, result: Result)
    requires events != [] && Earned(events[..|events| - 1], i, result)
    ensures Earned(events, i, result)
  {
    var shorter := events[..|events| - 1];
    if result.Refused? {
      var k :| 0 <= k < |shorter| && CameTooLate(shorter, i, k);
      assert shorter[..k] == events[..k] && shorter[k] == events[k];
      assert CameTooLate(events, i, k);
    }
  }

  /** Nobody closes, dies, runs out of time, or fails. */
  predicate Untroubled(events: seq<Event>) {
    forall e | e in events ::
      !e.Close? && !e.ChildDies? && (e.Begin? ==> !e.aborted) && (e.Exit? ==> !e.result.IsFatal())
  }

  lemma {:induction false} UntroubledStaysOpen(s: State, events: seq<Event>)
    requires Untroubled(events) && !s.closed && !s.childDied
    ensures !After(s, events).closed && !After(s, events).childDied
    decreases |events|
  {
    if events == [] {
    } else {
      assert events[0] in events && forall e | e in events[1..] :: e in events;
      UntroubledStaysOpen(Step(s, events[0]), events[1..]);
    }
  }

  /** So on an untroubled run every script whose turn comes is executed, and every settled one has its own result. */
  lemma UntroubledRunsAll(events: seq<Event>, i: nat)
    requires Untroubled(events) && i < |After(INITIAL, events).jobs|
    ensures var s := After(INITIAL, events);
            && (Turn(s, Begin(i, false), i) ==> Step(s, Begin(i, false)).jobs[i].Executing?)
            && (s.jobs[i].Settled? ==> Exit(i, s.jobs[i].result) in events)
  {
    var s := After(INITIAL, events);
    UntroubledStaysOpen(INITIAL, events);
    if s.jobs[i].Settled? {
      ResultsAreEarned(events, i);
      forall k | 0 <= k < |events|
        ensures !CameTooLate(events, i, k)
      {
        assert events[k] in events;
        UntroubledStaysOpen(INITIAL, events[..k]);
      }
    }
  }

  // ---- the same steps on mutable state ----

  class RuntimeSession {
    var jobs: seq<Stage>
    var closed: bool
    var childDied: bool

    function View(): State
      reads this
    {
      State(jobs, closed, childDied)
    }

    ghost predicate Valid()
      reads this
    {
      Inv(View())
    }

    constructor ()
      ensures View() == INITIAL && Valid()
    {
      jobs, closed, childDied := [], false, false;
    }

    method Run() returns (i: nat)
      requires Valid()
      modifies this`jobs
      ensures View() == Step(old(View()), Submit) && Valid()
      ensures i == |old(jobs)| && jobs == old(jobs) + [Queued]
    {
      StepKeepsInv(View(), Submit);
      i := |jobs|;
      jobs := jobs + [Queued];
    }

    /** The callback chained on the queue: refuse, or hand the script to the browser. */
    method Proceed(i: nat, aborted: bool) returns (executes: bool)
      requires Valid() && Chained(View(), i) && jobs[i].Queued?
      modifies this`jobs
      ensures View() == Step(old(View()), Begin(i, aborted)) && Valid()
      // when it does, everything before has settled, nothing fatally, and nothing after has begun
      ensures executes ==> forall j | 0 <= j < i :: jobs[j].Settled? && !Fatal(jobs[j])
      ensures executes ==> forall j | i < j < |jobs| :: jobs[j].Queued?
      // exactly when nothing speaks against it; nobody else's state changes
      ensures executes <==> !aborted && !closed && !childDied
      ensures jobs == old(jobs)[i := if executes then Executing else Settled(Refused)]
    {
      BeginKeepsInv(View(), i, aborted);
      if aborted || closed || childDied {
        jobs := jobs[i := Settled(Refused)];
        return false;
      }
      jobs := jobs[i := Executing];
      return true;
    }

    method Return(i: nat, result: Result)
      requires Valid() && i < |jobs| && jobs[i].Executing? && !result.Refused?
      modifies this`jobs, this`closed
      ensures View() == Step(old(View()), Exit(i, result)) && Valid()
      ensures result.IsFatal() ==> closed && forall j | i < j < |jobs| :: !jobs[j].Began()
      ensures !result.IsFatal() ==> jobs[i] == Settled(result) && closed == old(closed)
    {
      ExitKeepsInv(View(), i, result);
      if result.IsFatal() {
        CloseNow();
        jobs := jobs[i := Closing(result)];
      } else {
        jobs := jobs[i := Settled(result)];
      }
    }

    method CloseNow()
      modifies this`closed
      ensures View() == Step(old(View()), Close)
    {
      closed := true;
    }
  }
}
