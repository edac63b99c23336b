/** One browser session and its cleanup. Sessions do not share state, so one stands for all. A read from storage and the
    code up to the next await are one step; a write takes effect when it is issued. */
module Sessions {
  import opened Basics

  datatype Phase = Ready | Stopped | Closed

  /** The stored part of a record. */
  datatype Record = Record(phase: Phase, cleanupPending: bool)

  const FINAL := Record(Closed, false)

  datatype Stage = Waiting | Getting | Working | Ending

  /** A call of finish(record, target). Records are objects: several may describe the session at once. */
  datatype Task = Task(record: nat, target: Phase, stage: Stage)

  datatype State = State(
    stored: Option<Record>,
    records: map<nat, Record>,
    active: Option<nat>,
    cleanup: Option<nat>,        // the task whose body is in progress
    tasks: map<nat, Task>)

  const INITIAL := State(None, map[], None, None, map[])

  datatype Event =
    | OpenSave(r: nat)                       // open: the record is saved as ready
    | OpenActivate(r: nat)                   // open: the continuation makes it the active record
    | Own(r: nat)                            // a request parses its own copy, when none is active
    | Touch                                  // run: the finally block saves the active record
    | Finish(t: nat, r: nat, target: Phase)
    | Resume(t: nat)                         // an awaited cleanup has settled
    | Get(t: nat)                            // the stored record has been read
    | Called(t: nat, ok: bool)               // the host and desktop calls have settled
    | End(t: nat)                            // the body is over, or threw
    | Restart

  function SetTask(s: State, t: nat, stage: Stage): State
    requires t in s.tasks
  {
    s.(tasks := s.tasks[t := s.tasks[t].(stage := stage)])
  }

  function EndTask(s: State, t: nat): State {
    s.(tasks := s.tasks - {t}, cleanup := if s.cleanup == Some(t) then None else s.cleanup)
  }

  /** The first segment of the cleanup body. */
  function BeginWork(s: State, t: nat): State
    requires t in s.tasks
  {
    var task := s.tasks[t];
    var record := Record(task.target, true);
    SetTask(s.(active := if task.target.Closed? then None else Some(task.record),
               records := s.records[task.record := record],
               stored := Some(record),
               cleanup := Some(t)), t, Working)
  }

  function Step(s: State, e: Event): State {
    match e
    case OpenSave(r) =>
      if s.stored.Some? || r in s.records then s
      else s.(records := s.records[r := Record(Ready, false)], stored := Some(Record(Ready, false)))
    case OpenActivate(r) => if r in s.records then s.(active := Some(r)) else s
    case Own(r) =>
        if s.stored.None? || s.active.Some? || r in s.records then s else s.(records := s.records[r := s.stored.value])
    case Touch =>
        if s.active.Some? && s.active.value in s.records then s.(stored := Some(s.records[s.active.value])) else s
    case Finish(t, r, target) =>
      if t in s.tasks || r !in s.records || target.Ready? then s
      else s.(tasks := s.tasks[t := Task(r, target, if s.cleanup.Some? then Waiting else Getting)])
    case Resume(t) =>
      if t !in s.tasks || !s.tasks[t].stage.Waiting? then s
      else SetTask(s, t, if s.cleanup.Some? then Waiting else Getting)
    case Get(t) =>
      if t !in s.tasks || !s.tasks[t].stage.Getting? then s
      else if s.cleanup.Some? then SetTask(s, t, Waiting)
      else if s.stored == Some(FINAL) then EndTask(s, t)
      else BeginWork(s, t)
    case Called(t, ok) =>
      if t !in s.tasks || !s.tasks[t].stage.Working? || s.tasks[t].record !in s.records then s
      else
        var r := s.tasks[t].record;
        var record := s.records[r].(cleanupPending := !ok);
        SetTask(s.(records := s.records[r := record], stored := Some(record)), t, Ending)
    case End(t) => if t in s.tasks then EndTask(s, t) else s
    case Restart => s.(records := map[], active := None, cleanup := None, tasks := map[])
  }

  /** Nobody acts on the session between the save that announces it and its activation. */
  ghost predicate Enabled(s: State, e: Event) {
    e.OpenActivate? && e.r in s.records ==> s.active.None? && s.cleanup.None? && s.stored == Some(s.records[e.r])
  }

  /** A record exists only for a stored session, and a session that is ready has nothing to clean up. */
  ghost predicate StoredInv(s: State) {
    && (forall r | r in s.records :: s.stored.Some? && (s.records[r].phase.Ready? ==> !s.records[r].cleanupPending))
    && (s.stored.Some? && s.stored.value.phase.Ready? ==> !s.stored.value.cleanupPending)
  }

  ghost predicate InBody(task: Task) {
    task.stage.Working? || task.stage.Ending?
  }

  ghost predicate Inv(s: State) {
    && StoredInv(s)
    && (s.active.Some? ==> s.active.value in s.records && s.stored == Some(s.records[s.active.value]))
    && (s.cleanup.Some? ==> s.cleanup.value in s.tasks && InBody(s.tasks[s.cleanup.value]))
    && (forall t | t in s.tasks :: s.tasks[t].record in s.records && !s.tasks[t].target.Ready?)
    && (forall t | t in s.tasks && InBody(s.tasks[t]) ::
          && s.cleanup == Some(t)
          && s.stored == Some(s.records[s.tasks[t].record])
          && s.records[s.tasks[t].record].phase == s.tasks[t].target
          && (s.tasks[t].stage.Working? ==> s.records[s.tasks[t].record].cleanupPending)
          && s.active == if s.tasks[t].target.Closed? then None else Some(s.tasks[t].record))
  }

  /** What no step may do to the stored record. */
  ghost predicate Forward(before: Option<Record>, after: Option<Record>) {
    && (before == Some(FINAL) ==> after == before)
    && (before.Some? ==> after.Some? && (!before.value.phase.Ready? ==> !after.value.phase.Ready?))
  }

  /** Steps that change no record and no stored state. */
  lemma TaskStepKeepsInv(s: State, e: Event)
    requires Inv(s) && (e.Finish? || e.Resume? || e.End?)
    ensures Inv(Step(s, e)) && Step(s, e).stored == s.stored
  {}

  lemma OpenKeepsInv(s: State, e: Event)
    requires Inv(s) && Enabled(s, e) && (e.OpenSave? || e.OpenActivate? || e.Own?)
    ensures Inv(Step(s, e)) && Forward(s.stored, Step(s, e).stored)
  {}

  lemma GetKeepsInv(s: State, t: nat)
    requires Inv(s)
    ensures Inv(Step(s, Get(t))) && Forward(s.stored, Step(s, Get(t)).stored)
  {}

  lemma CalledKeepsInv(s: State, t: nat, ok: bool)
    requires Inv(s)
    ensures Inv(Step(s, Called(t, ok))) && Forward(s.stored, Step(s, Called(t, ok)).stored)
  {}

  lemma StepKeepsInv(s: State, e: Event)
    requires Inv(s) && Enabled(s, e)
    ensures Inv(Step(s, e))
    ensures Forward(s.stored, Step(s, e).stored)
  {
    match e
    case Get(t) => GetKeepsInv(s, t);
    case Called(t, ok) => CalledKeepsInv(s, t, ok);
    case OpenSave(_) => OpenKeepsInv(s, e);
    case OpenActivate(_) => OpenKeepsInv(s, e);
    case Own(_) => OpenKeepsInv(s, e);
    case Touch => assert Step(s, e) == s;
    case Restart =>
    case _ => TaskStepKeepsInv(s, e);
  }

  ghost predicate RunOf(s: State, events: seq<Event>)
    decreases |events|
  {
    events == [] || (Enabled(s, events[0]) && RunOf(Step(s, events[0]), events[1..]))
  }

  function After(s: State, events: seq<Event>): State
    decreases |events|
  {
    if events == [] then s else After(Step(s, events[0]), events[1..])
  }

  lemma {:induction false} RunKeepsInv(s: State, events: seq<Event>)
    requires Inv(s) && RunOf(s, events)
    ensures Inv(After(s, events)) && Forward(s.stored, After(s, events).stored)
    decreases |events|
  {
    if events == [] {
    } else {
      StepKeepsInv(s, events[0]);
      RunKeepsInv(Step(s, events[0]), events[1..]);
    }
  }

  lemma {:induction false} SplitRun(s: State, a: seq<Event>, b: seq<Event>)
    requires RunOf(s, a + b)
    ensures RunOf(s, a) && RunOf(After(s, a), b) && After(s, a + b) == After(After(s, a), b)
    decreases |a|
  {
    if a == [] {
      assert a + b == b;
    } else {
      assert (a + b)[1..] == a[1..] + b;
      SplitRun(Step(s, a[0]), a[1..], b);
    }
  }

  /** Single flight: in every reachable state at most one cleanup body is in progress. */
  lemma OneCleanupAtATime(events: seq<Event>, t: nat, u: nat)
    requires RunOf(INITIAL, events)
    requires var s := After(INITIAL, events); t in s.tasks && u in s.tasks && InBody(s.tasks[t]) && InBody(s.tasks[u])
    ensures t == u
  {
    RunKeepsInv(INITIAL, events);
  }

  /** Finality: once stored as closed with nothing pending, the record never changes; and once it has left `ready`
      it never returns. */
  lemma ClosedIsFinal(events: seq<Event>, more: seq<Event>)
    requires RunOf(INITIAL, events + more)
    ensures Forward(After(INITIAL, events).stored, After(INITIAL, events + more).stored)
  {
    SplitRun(INITIAL, events, more);
    RunKeepsInv(INITIAL, events);
    RunKeepsInv(After(INITIAL, events), more);
  }

  /** A session that is closed with its cleanup still pending may yet be stored as stopped. */
  lemma PendingCloseMayBecomeStopped()
    ensures exists a, b ::
              && RunOf(INITIAL, a + b)
              && After(INITIAL, a).stored == Some(Record(Closed, true))
              && After(INITIAL, a + b).stored == Some(Record(Stopped, true))
  {
    var closed, stopped := Record(Closed, true), Record(Stopped, true);
    var s6 := State(Some(closed), map[0 := closed], None, None, map[]);
    var s7 := s6.(tasks := map[1 := Task(0, Stopped, Getting)]);
    var s8 := State(Some(stopped), map[0 := stopped], Some(0), Some(1), map[1 := Task(0, Stopped, Working)]);
    var a := CloseWithFailure(s6);
    var last := RunCons(s7, Get(1), s8, [], s8);
    var b := RunCons(s6, Finish(1, 0, Stopped), s7, last, s8);
    JoinRun(INITIAL, a, b);
  }

  lemma CloseWithFailure(s6: State) returns (events: seq<Event>)
    requires s6 == State(Some(Record(Closed, true)), map[0 := Record(Closed, true)], None, None, map[])
    ensures RunOf(INITIAL, events) && After(INITIAL, events) == s6
  {
    var ready, closed := Record(Ready, false), Record(Closed, true);
    var s1 := State(Some(ready), map[0 := ready], None, None, map[]);
    var s2 := s1.(active := Some(0));
    var s3 := s2.(tasks := map[0 := Task(0, Closed, Getting)]);
    var s4 := State(Some(closed), map[0 := closed], None, Some(0), map[0 := Task(0, Closed, Working)]);
    var s5 := s4.(tasks := map[0 := Task(0, Closed, Ending)]);
    var e5 := RunCons(s5, End(0), s6, [], s6);
    var e4 := RunCons(s4, Called(0, false), s5, e5, s6);
    var e3 := RunCons(s3, Get(0), s4, e4, s6);
    var e2 := RunCons(s2, Finish(0, 0, Closed), s3, e3, s6);
    var e1 := RunCons(s1, OpenActivate(0), s2, e2, s6);
    events := RunCons(INITIAL, OpenSave(0), s1, e1, s6);
  }

  lemma RunCons(s: State, e: Event, next: State, rest: seq<Event>, end: State) returns (events: seq<Event>)
    requires Enabled(s, e) && Step(s, e) == next && RunOf(next, rest) && After(next, rest) == end
    ensures events == [e] + rest && RunOf(s, events) && After(s, events) == end
  {
    events := [e] + rest;
    assert events[1..] == rest;
  }

  lemma {:induction false} JoinRun(s: State, a: seq<Event>, b: seq<Event>)
    requires RunOf(s, a) && RunOf(After(s, a), b)
    ensures RunOf(s, a + b) && After(s, a + b) == After(After(s, a), b)
    decreases |a|
  {
    if a == [] {
      assert a + b == b;
    } else {
      assert (a + b)[1..] == a[1..] + b;
      JoinRun(Step(s, a[0]), a[1..], b);
    }
  }

  /** A whole cleanup that nobody interferes with: the record is stored under its target phase, with cleanup pending
      exactly if some call failed, and nothing is in progress afterwards. */
  function CleanupOf(t: nat, r: nat, target: Phase, ok: bool): seq<Event> {
    [Finish(t, r, target), Get(t), Called(t, ok), End(t)]
  }

  lemma WholeCleanup(s: State, t: nat, r: nat, target: Phase, ok: bool)
    requires Inv(s) && s.cleanup.None? && t !in s.tasks && r in s.records && !target.Ready?
    requires s.stored != Some(FINAL)
    ensures RunOf(s, CleanupOf(t, r, target, ok))
    ensures var done := After(s, CleanupOf(t, r, target, ok));
            && done.stored == Some(Record(target, !ok)) && done.cleanup.None? && done.tasks == s.tasks
            && done.active == if target.Closed? then None else Some(r)
  {
    var s2 := CleanupBegins(s, t, r, target);
    var rest := CleanupEnds(s2, t, ok);
    var s1 := Step(s, Finish(t, r, target));
    var e2 := RunCons(s1, Get(t), s2, rest, After(s2, rest));
    var e1 := RunCons(s, Finish(t, r, target), s1, e2, After(s2, rest));
    assert e1 == CleanupOf(t, r, target, ok);
    assert s2.tasks - {t} == s.tasks;
  }

  lemma CleanupBegins(s: State, t: nat, r: nat, target: Phase) returns (working: State)
    requires Inv(s) && s.cleanup.None? && t !in s.tasks && r in s.records && !target.Ready?
    requires s.stored != Some(FINAL)
    ensures working == Step(Step(s, Finish(t, r, target)), Get(t))
    ensures working.tasks == s.tasks[t := Task(r, target, Working)] && working.cleanup == Some(t)
    ensures working.records == s.records[r := Record(target, true)]
    ensures working.active == if target.Closed? then None else Some(r)
  {
    working := Step(Step(s, Finish(t, r, target)), Get(t));
    assert working.tasks == s.tasks[t := Task(r, target, Working)];
  }

  lemma CleanupEnds(s: State, t: nat, ok: bool) returns (rest: seq<Event>)
    requires t in s.tasks && s.tasks[t].stage.Working? && s.cleanup == Some(t) && s.tasks[t].record in s.records
    ensures rest == [Called(t, ok), End(t)] && RunOf(s, rest)
    ensures var done := After(s, rest);
            && done.stored == Some(s.records[s.tasks[t].record].(cleanupPending := !ok))
            && done.cleanup.None? && done.tasks == s.tasks - {t} && done.active == s.active
  {
    var called := Step(s, Called(t, ok));
    var done := Step(called, End(t));
    assert called.tasks - {t} == s.tasks - {t};
    var last := RunCons(called, End(t), done, [], done);
    rest := RunCons(s, Called(t, ok), called, last, done);
  }

  /** So a close whose calls all succeed makes the record final, and a final record is not cleaned up again. */
  lemma CleanCloseIsFinal(s: State, t: nat, r: nat)
    requires Inv(s) && s.cleanup.None? && t !in s.tasks && r in s.records
    ensures After(s, CleanupOf(t, r, Closed, true)).stored == Some(FINAL)
    ensures s.stored == Some(FINAL) ==> Step(Step(s, Finish(t, r, Closed)), Get(t)) == s
  {
    if s.stored != Some(FINAL) {
      WholeCleanup(s, t, r, Closed, true);
    } else {
      var s1 := Step(s, Finish(t, r, Closed));
      assert Step(s1, Get(t)).tasks == s.tasks;
      FinalRestIdles(s, t);
    }
  }

  /** A cleanup that finds another one in progress waits for it, and takes over when that has ended, unless the record
      has become final meanwhile. */
  lemma WaiterFollows(s: State, t: nat, u: nat)
    requires Inv(s) && s.cleanup == Some(u) && s.tasks[u].stage.Ending? && t in s.tasks && s.tasks[t].stage.Waiting?
    ensures Step(s, Resume(t)).tasks == s.tasks
    ensures var next := Step(Step(Step(s, End(u)), Resume(t)), Get(t));
            if s.stored == Some(FINAL) then next.cleanup.None? && t !in next.tasks && next.stored == s.stored
            else next.cleanup == Some(t) && next.stored == Some(Record(s.tasks[t].target, true))
  {
    assert t != u;
  }

  /** After a restart only the stored record is left, and a request then works on a copy of it. */
  lemma RestartKeepsStored(s: State, r: nat)
    requires s.stored.Some?
    ensures Step(Step(s, Restart), Own(r)) == State(s.stored, map[r := s.stored.value], None, None, map[])
    ensures s.active.Some? || r in s.records ==> Step(s, Own(r)) == s
  {}

  lemma FinalRestIdles(s: State, t: nat)
    requires t !in s.tasks && s.cleanup != Some(t)
    ensures After(s, [Called(t, true), End(t)]) == s
  {
    var rest := [Called(t, true), End(t)];
    assert rest[1..] == [End(t)] && [End(t)][1..] == [];
    assert After(s, [End(t)]) == s;
  }

  /** When is the activation at the end of `open` harmless? In every state that can be reached: all later runs only
      move the stored record forward if and only if it is still the record saved. If someone stopped or closed the
      session in between, the next save of the active record brings it back as ready. */
  lemma ActivationIsSafeExactly(s: State, r: nat)
    requires Inv(s) && s.active.None? && r in s.records && s.records[r] == Record(Ready, false)
    ensures var active := Step(s, OpenActivate(r));
            (forall events | RunOf(active, events) :: Forward(s.stored, After(active, events).stored)) <==>
            s.stored == Some(s.records[r])
  {
    var active := Step(s, OpenActivate(r));
    if s.stored == Some(s.records[r]) {
      assert s.cleanup.None?;
      OpenKeepsInv(s, OpenActivate(r));
      forall events | RunOf(active, events)
        ensures Forward(s.stored, After(active, events).stored)
      {
        RunKeepsInv(active, events);
      }
    } else {
      var events := TouchBringsBack(s, r);
      assert RunOf(active, events);
    }
  }

  lemma TouchBringsBack(s: State, r: nat) returns (events: seq<Event>)
    requires Inv(s) && s.active.None? && r in s.records && s.records[r] == Record(Ready, false)
    requires s.stored != Some(s.records[r])
    ensures RunOf(Step(s, OpenActivate(r)), events)
    ensures !Forward(s.stored, After(Step(s, OpenActivate(r)), events).stored)
  {
    var active := Step(s, OpenActivate(r));
    events := RunCons(active, Touch, Step(active, Touch), [], Step(active, Touch));
  }

  // ---- the same steps on mutable state ----

  class Cleanup {
    var stored: Option<Record>
    var records: map<nat, Record>
    var active: Option<nat>
    var cleanup: Option<nat>
    var tasks: map<nat, Task>

    function View(): State
      reads this
    {
      State(stored, records, active, cleanup, tasks)
    }

    ghost predicate Valid()
      reads this
    {
      Inv(View())
    }

    constructor ()
      ensures View() == INITIAL && Valid()
    {
      stored, records, active, cleanup, tasks := None, map[], None, None, map[];
    }

    /** finish(): wait for a cleanup in progress, or go and read the stored record. */
    method FinishSession(t: nat, r: nat, target: Phase)
      requires Valid() && t !in tasks && r in records && !target.Ready?
      modifies this
      ensures View() == Step(old(View()), Finish(t, r, target)) && Valid() && Forward(old(stored), stored)
    {
      StepKeepsInv(View(), Finish(t, r, target));
      tasks := tasks[t := Task(r, target, if cleanup.Some? then Waiting else Getting)];
    }

    /** After the read: re-check for a cleanup, return a final record as it is, or start the body. */
    method AfterGet(t: nat)
      requires Valid() && t in tasks && tasks[t].stage.Getting?
      modifies this
      ensures View() == Step(old(View()), Get(t)) && Valid() && Forward(old(stored), stored)
    {
      StepKeepsInv(View(), Get(t));
      var task := tasks[t];
      if cleanup.Some? {
        tasks := tasks[t := task.(stage := Waiting)];
        return;
      }
      if stored == Some(FINAL) {
        tasks := tasks - {t};
        return;
      }
      active := if task.target.Closed? then None else Some(task.record);
      records := records[task.record := Record(task.target, true)];
      stored := Some(records[task.record]);
      cleanup := Some(t);
      tasks := tasks[t := task.(stage := Working)];
    }

    /** All calls have settled: note whether any failed, and save. */
    method AfterCalls(t: nat, ok: bool)
      requires Valid() && t in tasks && tasks[t].stage.Working? && tasks[t].record in records
      modifies this
      ensures View() == Step(old(View()), Called(t, ok)) && Valid() && Forward(old(stored), stored)
    {
      StepKeepsInv(View(), Called(t, ok));
      var r := tasks[t].record;
      records := records[r := records[r].(cleanupPending := !ok)];
      stored := Some(records[r]);
      tasks := tasks[t := tasks[t].(stage := Ending)];
    }

    /** The finally block around the body. */
    method EndBody(t: nat)
      requires Valid() && t in tasks
      modifies this
      ensures View() == Step(old(View()), End(t)) && Valid() && Forward(old(stored), stored)
    {
      StepKeepsInv(View(), End(t));
      if cleanup == Some(t) { cleanup := None; }
      tasks := tasks - {t};
    }

    /** The finally block of run: the active record, if any, is saved again. */
    method TouchActive()
      requires Valid()
      modifies this
      ensures View() == Step(old(View()), Touch)
      ensures View() == old(View())
    {
      if active.Some? { stored := Some(records[active.value]); }
    }
  }
}
