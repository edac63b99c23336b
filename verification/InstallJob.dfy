/** Preparing the browser runtime: callers share one install job, counted while they are attached to it, and a job
    nobody has been attached to for a whole grace period is aborted. */
module InstallJob {
  import opened Basics

  datatype Timer = Off | Set(at: nat) | Fired

  datatype Job = Job(waiters: int, timer: Timer, aborted: bool)

  /** A caller's handle; None when the runtime was already resolved and its detach does nothing. */
  datatype Handle = Handle(job: Option<nat>, attached: bool)

  /** job: the current one; jobs also keeps settled jobs, whose handles may still be detached. */
  datatype State = State(
    now: nat,
    resolved: bool,
    job: Option<nat>,
    jobs: map<nat, Job>,
    handles: map<nat, Handle>)

  const INITIAL := State(0, false, None, map[], map[])

  datatype Event =
    | Tick(d: nat)
    | Unusable                   // the resolved binary is no longer executable
    | Attach(h: nat, id: nat)    // id names the job if a new one is started
    | Detach(h: nat)
    | Fire(j: nat)
    | Settle(j: nat, ok: bool)   // the job's promise has settled

  function Step(grace: nat, s: State, e: Event): State {
    match e
    case Tick(d) => s.(now := s.now + d)
    case Unusable => s.(resolved := false)
    case Attach(h, id) => if h in s.handles || (s.job.None? && id in s.jobs) then s else AttachTo(s, h, id)
    case Detach(h) =>
      if h !in s.handles || !s.handles[h].attached || s.handles[h].job.None? then s
      else DetachFrom(grace, s.(handles := s.handles[h := s.handles[h].(attached := false)]), s.handles[h].job.value)
    case Fire(j) =>
      if j !in s.jobs || !s.jobs[j].timer.Set? || s.now < s.jobs[j].timer.at then s
      else
        var aborts := s.jobs[j].waiters == 0 && s.job == Some(j);
        s.(jobs := s.jobs[j := s.jobs[j].(timer := Fired, aborted := s.jobs[j].aborted || aborts)])
    case Settle(j, ok) =>
      if s.job != Some(j) || j !in s.jobs then s
      else s.(resolved := s.resolved || ok, job := None, jobs := s.jobs[j := s.jobs[j].(timer := Off)])
  }

  function AttachTo(s: State, h: nat, id: nat): State {
    if s.resolved then s.(handles := s.handles[h := Handle(None, true)])
    else
      var j := if s.job.Some? then s.job.value else id;
      var job := if j in s.jobs then s.jobs[j] else Job(0, Off, false);
      s.(job := Some(j), jobs := s.jobs[j := job.(waiters := job.waiters + 1, timer := Off)],
         handles := s.handles[h := Handle(Some(j), true)])
  }

  function DetachFrom(grace: nat, s: State, j: nat): State {
    if j !in s.jobs then s
    else
      var job := s.jobs[j].(waiters := s.jobs[j].waiters - 1);
      var arms := job.waiters <= 0 && s.job == Some(j) && job.timer.Off?;
      s.(jobs := s.jobs[j := if arms then job.(timer := Set(s.now + grace)) else job])
  }

  function After(grace: nat, s: State, events: seq<Event>): State
    decreases |events|
  {
    if events == [] then s else After(grace, Step(grace, s, events[0]), events[1..])
  }

  function AttachedTo(handles: map<nat, Handle>, j: nat): set<nat> {
    set h | h in handles && handles[h].attached && handles[h].job == Some(j)
  }

  function Attached(s: State, j: nat): set<nat> {
    AttachedTo(s.handles, j)
  }

  lemma AttachingCounts(handles: map<nat, Handle>, h: nat, to: Option<nat>, j: nat)
    requires h !in handles
    ensures |AttachedTo(handles[h := Handle(to, true)], j)| ==
              |AttachedTo(handles, j)| + (if to == Some(j) then 1 else 0)
  {
    var after := AttachedTo(handles[h := Handle(to, true)], j);
    assert after == if to == Some(j) then AttachedTo(handles, j) + {h} else AttachedTo(handles, j);
  }

  lemma DetachingCounts(handles: map<nat, Handle>, h: nat, j: nat)
    requires h in handles && handles[h].attached
    ensures |AttachedTo(handles[h := handles[h].(attached := false)], j)| ==
            |AttachedTo(handles, j)| - (if handles[h].job == Some(j) then 1 else 0)
  {
    var after := AttachedTo(handles[h := handles[h].(attached := false)], j);
    assert after == AttachedTo(handles, j) - {h};
  }

  ghost predicate Known(s: State) {
    && (s.job.Some? ==> s.job.value in s.jobs)
    && (forall h | h in s.handles && s.handles[h].job.Some? :: s.handles[h].job.value in s.jobs)
  }

  /** The counter counts. */
  ghost predicate Counted(s: State) {
    forall j | j in s.jobs :: s.jobs[j].waiters == |Attached(s, j)|
  }

  /** A timer runs only for the current job and only while nobody is attached; it has fired only by aborting; and the
      current job, when nobody is attached, has a timer running or has been aborted. */
  predicate Timed(current: bool, job: Job) {
    && (job.timer.Set? ==> current && job.waiters == 0)
    && (job.timer.Fired? ==> job.aborted)
    && (current && job.waiters == 0 ==> job.timer.Set? || job.aborted)
    && (current && job.waiters > 0 ==> job.timer.Off?)
  }

  ghost predicate Inv(s: State) {
    Known(s) && Counted(s) && forall j | j in s.jobs :: Timed(s.job == Some(j), s.jobs[j])
  }

  lemma AttachKeepsCount(s: State, h: nat, id: nat)
    requires Known(s) && Counted(s) && h !in s.handles && (s.job.None? ==> id !in s.jobs)
    ensures Counted(AttachTo(s, h, id))
  {
    var t := AttachTo(s, h, id);
    forall j | j in t.jobs
      ensures t.jobs[j].waiters == |Attached(t, j)|
    {
      AttachingCounts(s.handles, h, t.handles[h].job, j);
      if j !in s.jobs { assert AttachedTo(s.handles, j) == {}; }
    }
  }

  lemma AttachKeepsInv(grace: nat, s: State, h: nat, id: nat)
    requires Inv(s)
    ensures Inv(Step(grace, s, Attach(h, id)))
  {
    if h !in s.handles && (s.job.None? ==> id !in s.jobs) {
      AttachKeepsCount(s, h, id);
      var t := AttachTo(s, h, id);
      forall j | j in t.jobs
        ensures Timed(t.job == Some(j), t.jobs[j])
      {
        assert j in s.jobs ==> Timed(s.job == Some(j), s.jobs[j]) && s.jobs[j].waiters == |Attached(s, j)|;
      }
    }
  }

  lemma DetachKeepsCount(grace: nat, s: State, h: nat)
    requires Known(s) && Counted(s)
    ensures Counted(Step(grace, s, Detach(h)))
  {
    var t := Step(grace, s, Detach(h));
    if t != s {
      forall j | j in t.jobs
        ensures t.jobs[j].waiters == |Attached(t, j)|
      {
        DetachingCounts(s.handles, h, j);
      }
    }
  }

  lemma DetachKeepsInv(grace: nat, s: State, h: nat)
    requires Inv(s)
    ensures Inv(Step(grace, s, Detach(h)))
  {
    DetachKeepsCount(grace, s, h);
    var t := Step(grace, s, Detach(h));
    forall j | j in t.jobs
      ensures Timed(t.job == Some(j), t.jobs[j])
    {
      assert Timed(s.job == Some(j), s.jobs[j]);
      assert t.jobs[j].waiters == |Attached(t, j)|;
      assert t != s && s.handles[h].job == Some(j) ==> h in Attached(s, j);
    }
  }

  lemma StepKeepsInv(grace: nat, s: State, e: Event)
    requires Inv(s)
    ensures Inv(Step(grace, s, e))
  {
    if e.Attach? {
      AttachKeepsInv(grace, s, e.h, e.id);
    } else if e.Detach? {
      DetachKeepsInv(grace, s, e.h);
    } else {
      var t := Step(grace, s, e);
      assert forall j :: Attached(t, j) == Attached(s, j);
      assert forall j | j in s.jobs :: Timed(s.job == Some(j), s.jobs[j]);
    }
  }

  lemma {:induction false} RunKeepsInv(grace: nat, s: State, events: seq<Event>)
    requires Inv(s)
    ensures Inv(After(grace, s, events))
    decreases |events|
  {
    if events == [] {
    } else {
      StepKeepsInv(grace, s, events[0]);
      RunKeepsInv(grace, Step(grace, s, events[0]), events[1..]);
    }
  }

  /** In every reachable state the counter of a job is the number of callers attached to it. */
  lemma WaitersCountHandles(grace: nat, events: seq<Event>, j: nat)
    requires j in After(grace, INITIAL, events).jobs
    ensures var s := After(grace, INITIAL, events); s.jobs[j].waiters == |Attached(s, j)|
  {
    RunKeepsInv(grace, INITIAL, events);
  }

  lemma DetachTwiceIsOnce(grace: nat, s: State, h: nat)
    ensures Step(grace, Step(grace, s, Detach(h)), Detach(h)) == Step(grace, s, Detach(h))
  {}

  lemma {:induction false} AfterLast(grace: nat, s: State, events: seq<Event>)
    requires events != []
    ensures After(grace, s, events) == Step(grace, After(grace, s, events[..|events| - 1]), events[|events| - 1])
    decreases |events|
  {
    if |events| > 1 {
      AfterLast(grace, Step(grace, s, events[0]), events[1..]);
      assert events[1..][..|events| - 2] == events[..|events| - 1][1..];
    }
  }

  lemma {:induction false} ClockRuns(grace: nat, s: State, events: seq<Event>)
    ensures s.now <= After(grace, s, events).now
    decreases |events|
  {
    if events == [] {
    } else {
      ClockRuns(grace, Step(grace, s, events[0]), events[1..]);
    }
  }

  lemma {:induction false} ClockRunsFrom(grace: nat, s: State, events: seq<Event>, k: nat)
    requires k <= |events|
    ensures After(grace, s, events[..k]).now <= After(grace, s, events).now
    decreases |events|
  {
    if k == 0 {
      ClockRuns(grace, s, events);
    } else {
      assert events[..k][1..] == events[1..][..k - 1];
      ClockRunsFrom(grace, Step(grace, s, events[0]), events[1..], k - 1);
    }
  }

  /** A timer found running after a step was either running before it, unchanged, or has just been set. */
  lemma TimerOrigin(grace: nat, s: State, e: Event, j: nat)
    requires Inv(s)
    requires var t := Step(grace, s, e); j in t.jobs && t.jobs[j].timer.Set?
    ensures var t := Step(grace, s, e);
            Attached(t, j) == {} &&
            ((j in s.jobs && s.jobs[j].timer == t.jobs[j].timer) || t.jobs[j].timer.at == s.now + grace)
  {
    StepKeepsInv(grace, s, e);
    var t := Step(grace, s, e);
    assert Timed(t.job == Some(j), t.jobs[j]);
  }

  /** A running timer that is due at `at` saw nobody attached at any moment of the run later than at - grace. */
  lemma {:induction false} TimerMeansQuiet(grace: nat, events: seq<Event>, t: State, j: nat, k: nat, past: State)
    requires t == After(grace, INITIAL, events) && j in t.jobs && t.jobs[j].timer.Set?
    requires k <= |events| && past == After(grace, INITIAL, events[..k]) && past.now + grace > t.jobs[j].timer.at
    ensures Attached(past, j) == {}
    decreases |events|
  {
    assert events != [];
    var last := |events| - 1;
    var shorter := events[..last];
    var s := After(grace, INITIAL, shorter);
    AfterLast(grace, INITIAL, events);
    RunKeepsInv(grace, INITIAL, shorter);
    TimerOrigin(grace, s, events[last], j);
    if k == |events| {
      assert events[..k] == events;
    } else {
      assert shorter[..k] == events[..k];
      ClockRunsFrom(grace, INITIAL, shorter, k);
      TimerMeansQuiet(grace, shorter, s, j, k, past);
    }
  }

  /** A job is aborted only after a whole grace period during which nobody was attached to it. */
  lemma AbortAfterQuietGrace(grace: nat, events: seq<Event>, j: nat, k: nat)
    requires var s := After(grace, INITIAL, events);
             j in s.jobs && !s.jobs[j].aborted && Step(grace, s, Fire(j)).jobs[j].aborted
    requires k <= |events| && After(grace, INITIAL, events[..k]).now + grace > After(grace, INITIAL, events).now
    ensures Attached(After(grace, INITIAL, events[..k]), j) == {}
  {
    TimerMeansQuiet(grace, events, After(grace, INITIAL, events), j, k, After(grace, INITIAL, events[..k]));
  }

  /** Nothing else aborts, and no abandoned job is forgotten: if nobody is attached to the current job, it has been
      aborted or its timer is running. */
  lemma AbandonedJobsEnd(grace: nat, events: seq<Event>, e: Event)
    ensures var s := After(grace, INITIAL, events);
            && (s.job.Some? && s.job.value in s.jobs && Attached(s, s.job.value) == {} ==>
                  s.jobs[s.job.value].aborted || s.jobs[s.job.value].timer.Set?)
            && (!e.Fire? ==> forall j | j in Step(grace, s, e).jobs && Step(grace, s, e).jobs[j].aborted ::
                               j in s.jobs && s.jobs[j].aborted)
  {
    RunKeepsInv(grace, INITIAL, events);
  }

  // ---- one job at a time ----

  /** A caller gets no job when the runtime is resolved, joins the current job when there is one, and else starts one,
      to which it is the only caller; and a timer that was running is called off. */
  lemma AttachExactly(grace: nat, s: State, h: nat, id: nat)
    requires Known(s) && h !in s.handles && id !in s.jobs
    ensures var t := Step(grace, s, Attach(h, id));
            && h in t.handles && t.handles[h].attached && t.resolved == s.resolved
            && (s.resolved ==> t.handles[h].job.None? && t.job == s.job && t.jobs == s.jobs)
            && (!s.resolved ==> t.handles[h].job == t.job)
            && (!s.resolved && s.job.Some? ==>
                  t.job == s.job && Attached(t, t.job.value) == Attached(s, t.job.value) + {h} &&
                  t.jobs[t.job.value].timer.Off? && t.jobs[t.job.value].aborted == s.jobs[t.job.value].aborted)
            && (!s.resolved && s.job.None? ==>
                  t.job == Some(id) && t.jobs[id] == Job(1, Off, false) && Attached(t, id) == {h})
  {
    var t := Step(grace, s, Attach(h, id));
    if !s.resolved && s.job.None? {
      assert forall x | x in s.handles :: s.handles[x].job != Some(id);
      assert Attached(t, id) == {h};
    }
    if !s.resolved && s.job.Some? {
      assert Attached(t, t.job.value) == Attached(s, t.job.value) + {h};
    }
  }

  /** Single flight: the current job is given up only when its own promise settles, and then the runtime is resolved
      exactly if it was or the job succeeded. */
  lemma JobEndsOnlyBySettling(grace: nat, s: State, e: Event, j: nat)
    requires Inv(s) && s.job == Some(j)
    ensures var t := Step(grace, s, e);
            if e.Settle? && e.j == j then t.job.None? && (t.resolved <==> s.resolved || e.ok)
            else t.job == Some(j) && (t.resolved <==> s.resolved && !e.Unusable?)
  {}

  /** A due timer aborts the job it was set for; one that is not due, or not running, does nothing. */
  lemma FireExactly(grace: nat, s: State, j: nat)
    requires Inv(s) && j in s.jobs
    ensures var t := Step(grace, s, Fire(j));
            if s.jobs[j].timer.Set? && s.jobs[j].timer.at <= s.now then t.jobs[j].aborted && t.jobs[j].timer.Fired?
            else t == s
  {
    assert Timed(s.job == Some(j), s.jobs[j]);
  }

  /** When the last caller leaves the current job, the timer runs for exactly one grace period from then. */
  lemma LastCallerLeaves(grace: nat, s: State, h: nat, j: nat)
    requires Inv(s) && s.job == Some(j) && Attached(s, j) == {h} && !s.jobs[j].aborted
    ensures var t := Step(grace, s, Detach(h));
            Attached(t, j) == {} && j in t.jobs && t.jobs[j].timer == Set(s.now + grace)
  {
    var t := Step(grace, s, Detach(h));
    assert h in Attached(s, j) && s.jobs[j].waiters == |Attached(s, j)|;
    assert Timed(true, s.jobs[j]);
    assert t.handles == s.handles[h := s.handles[h].(attached := false)];
    assert forall x | x in Attached(t, j) :: x in Attached(s, j) && x != h;
  }

  /** The timer never aborts a job while a caller is attached, but a caller may attach to a job already aborted: the
      job stays current until its promise settles. */
  lemma LateCallerJoinsAbortedJob(grace: nat)
    ensures var events := [Attach(0, 0), Detach(0), Tick(grace), Fire(0), Attach(1, 1)];
            var s := After(grace, INITIAL, events);
            s.job == Some(0) && 0 in s.jobs && s.jobs[0].aborted && Attached(s, 0) == {1}
  {
    var s1 := State(0, false, Some(0), map[0 := Job(1, Off, false)], map[0 := Handle(Some(0), true)]);
    var s2 := State(0, false, Some(0), map[0 := Job(0, Set(grace), false)], map[0 := Handle(Some(0), false)]);
    var s3 := s2.(now := grace);
    var s4 := s3.(jobs := map[0 := Job(0, Fired, true)]);
    var s5 := s4.(jobs := map[0 := Job(1, Off, true)],
        handles := map[0 := Handle(Some(0), false), 1 := Handle(Some(0), true)]);
    assert Step(grace, INITIAL, Attach(0, 0)) == s1;
    assert Step(grace, s1, Detach(0)) == s2;
    assert Step(grace, s2, Tick(grace)) == s3;
    assert Step(grace, s3, Fire(0)) == s4;
    assert Step(grace, s4, Attach(1, 1)) == s5;
    var e4: seq<Event> := [Attach(1, 1)];
    var e3 := [Fire(0), Attach(1, 1)];
    var e2 := [Tick(grace), Fire(0), Attach(1, 1)];
    var e1 := [Detach(0), Tick(grace), Fire(0), Attach(1, 1)];
    var e0 := [Attach(0, 0), Detach(0), Tick(grace), Fire(0), Attach(1, 1)];
    assert e0[1..] == e1 && e1[1..] == e2 && e2[1..] == e3 && e3[1..] == e4;
    assert After(grace, s4, e4) == s5;
    assert After(grace, s3, e3) == s5;
    assert After(grace, s2, e2) == s5;
    assert After(grace, s1, e1) == s5;
    assert After(grace, INITIAL, e0) == s5;
    assert Attached(s5, 0) == {1};
  }

  // ---- the same steps on mutable state ----

  class RuntimeHost {
    const grace: nat
    var now: nat
    var resolved: bool
    var job: Option<nat>
    var jobs: map<nat, Job>
    var handles: map<nat, Handle>

    function View(): State
      reads this
    {
      State(now, resolved, job, jobs, handles)
    }

    constructor (grace: nat)
      ensures this.grace == grace && View() == INITIAL
    {
      this.grace := grace;
      now, resolved, job, jobs, handles := 0, false, None, map[], map[];
    }

    /** attachRuntime(), after the check that a resolved binary is still usable. */
    method AttachRuntime(h: nat, id: nat)
      requires Inv(View()) && h !in handles && id !in jobs
      modifies this
      ensures View() == Step(grace, old(View()), Attach(h, id)) && Inv(View())
    {
      AttachKeepsInv(grace, View(), h, id);
      if resolved {
        handles := handles[h := Handle(None, true)];
        return;
      }
      if job.None? {
        jobs := jobs[id := Job(0, Off, false)];
        job := Some(id);
      }
      var j := job.value;
      jobs := jobs[j := jobs[j].(waiters := jobs[j].waiters + 1, timer := Off)];
      handles := handles[h := Handle(Some(j), true)];
    }

    /** One caller fewer; the last one to leave the current job starts its grace period. */
    method LeaveJob(j: nat)
      requires j in jobs
      modifies `jobs
      ensures View() == DetachFrom(grace, old(View()), j)
    {
      jobs := jobs[j := jobs[j].(waiters := jobs[j].waiters - 1)];
      if jobs[j].waiters > 0 || job != Some(j) || !jobs[j].timer.Off? {
        return;
      }
      jobs := jobs[j := jobs[j].(timer := Set(now + grace))];
    }

    /** The detach closure of handle h. */
    method DetachHandle(h: nat)
      requires Inv(View()) && h in handles && handles[h].job.Some?
      modifies this
      ensures View() == Step(grace, old(View()), Detach(h)) && Inv(View())
    {
      DetachKeepsInv(grace, View(), h);
      if !handles[h].attached {
        return;
      }
      handles := handles[h := handles[h].(attached := false)];
      LeaveJob(handles[h].job.value);
    }
  }
}
