/** The install lock: a file hard-linked into place, stale locks broken after inspection. Any number of processes, each
    with any number of attempts; every file-system call is one step. */
module InstallLock {
  import opened Basics

  /** The lock file: its inode and the attempt whose token it holds. Inodes are never reused. */
  datatype LockFile = LockFile(ino: nat, owner: nat)

  datatype Phase =
    | Trying                                     // about to link the claim
    | Holding(ino: nat)                          // linked
    | Releasing(ino: nat)                        // release: the re-check passed, about to unlink
    | Looking                                    // link failed: about to stat the lock
    | Seen(ino: nat)                             // stat done, about to read the owner
    | Judged(seen: nat, file: LockFile, stale: bool)
    | Breaking(file: LockFile)                   // stale, and the second stat agreed: about to unlink
    | Gone                                       // released or given up

  datatype Attempt = Attempt(pid: nat, phase: Phase)

  datatype State = State(file: Option<LockFile>, nextIno: nat, attempts: map<nat, Attempt>, dead: set<nat>)

  const INITIAL := State(None, 0, map[], {})

  datatype Event =
    | Start(a: nat, pid: nat)
    | Link(a: nat)
    | Stat(a: nat)
    | ReadOwner(a: nat, stale: bool)
    | Recheck(a: nat)
    | Break(a: nat)
    | CheckRelease(a: nat)
    | Release(a: nat)
    | Abandon(a: nat)
    | Die(pid: nat)

  predicate Alive(s: State, a: nat) {
    a in s.attempts && s.attempts[a].pid !in s.dead
  }

  predicate Owns(p: Phase) {
    p.Holding? || p.Releasing?
  }

  function To(s: State, a: nat, phase: Phase): State
    requires a in s.attempts
  {
    s.(attempts := s.attempts[a := s.attempts[a].(phase := phase)])
  }

  function Act(s: State, a: nat, e: Event): State
    requires a in s.attempts
  {
    var phase := s.attempts[a].phase;
    match e
    case Link(_) =>
      if !phase.Trying? then s
      else if s.file.Some? then To(s, a, Looking)
      else To(s.(file := Some(LockFile(s.nextIno, a)), nextIno := s.nextIno + 1), a, Holding(s.nextIno))
    case Stat(_) =>
      if !phase.Looking? then s
      else if s.file.None? then To(s, a, Trying)
      else To(s, a, Seen(s.file.value.ino))
    case ReadOwner(_, stale) =>
      if !phase.Seen? then s
      else if s.file.None? then To(s, a, Trying)
      else To(s, a, Judged(phase.ino, s.file.value, stale))
    case Recheck(_) =>
      if !phase.Judged? then s
      else if phase.stale && s.file.Some? && s.file.value.ino == phase.seen &&
              SamePid(s, s.file.value.owner, phase.file.owner) then To(s, a, Breaking(s.file.value))
      else To(s, a, Trying)
    case Break(_) => if !phase.Breaking? then s else To(s.(file := None), a, Trying)
    case CheckRelease(_) =>
      if !phase.Holding? then s
      else if s.file == Some(LockFile(phase.ino, a)) then To(s, a, Releasing(phase.ino))
      else To(s, a, Gone)
    case Release(_) => if !phase.Releasing? then s else To(s.(file := None), a, Gone)
    case Abandon(_) => if Owns(phase) then s else To(s, a, Gone)
    case _ => s
  }

  predicate SamePid(s: State, a: nat, b: nat) {
    a in s.attempts && b in s.attempts && s.attempts[a].pid == s.attempts[b].pid
  }

  function Step(s: State, e: Event): State {
    match e
    case Start(a, pid) =>
        if a in s.attempts || pid in s.dead then s else s.(attempts := s.attempts[a := Attempt(pid, Trying)])
    case Die(pid) => s.(dead := s.dead + {pid})
    case _ => if Alive(s, e.a) then Act(s, e.a, e) else s
  }

  // ---- assumptions ----

  /** A stale verdict falls only on a dead process, and the lock does not change between the second look and the
      unlink. */
  ghost predicate Enabled(s: State, e: Event) {
    match e
    case ReadOwner(a, stale) => stale && s.file.Some? ==> !Alive(s, s.file.value.owner)
    case Break(a) => Alive(s, a) && s.attempts[a].phase.Breaking? ==> s.file == Some(s.attempts[a].phase.file)
    case _ => true
  }

  ghost predicate Holds(s: State, a: nat) {
    Alive(s, a) && Owns(s.attempts[a].phase)
  }

  // ---- invariant ----

  ghost predicate AttemptInv(s: State, a: nat)
    requires a in s.attempts
  {
    match s.attempts[a].phase
    case Holding(ino) => ino < s.nextIno && (Alive(s, a) ==> s.file == Some(LockFile(ino, a)))
    case Releasing(ino) => ino < s.nextIno && (Alive(s, a) ==> s.file == Some(LockFile(ino, a)))
    case Seen(ino) => ino < s.nextIno && (s.file.Some? ==> ino <= s.file.value.ino)
    case Judged(seen, file, stale) =>
      && seen <= file.ino < s.nextIno && file.owner in s.attempts
      && (s.file.Some? ==> file.ino <= s.file.value.ino && (file.ino == s.file.value.ino ==> file == s.file.value))
      && (stale ==> !Alive(s, file.owner))
    case Breaking(file) => file.owner in s.attempts && !Alive(s, file.owner)
    case _ => true
  }

  ghost predicate Inv(s: State) {
    && (s.file.Some? ==> s.file.value.ino < s.nextIno && s.file.value.owner in s.attempts)
    && forall a | a in s.attempts :: AttemptInv(s, a)
  }

  /** Attempts that do not act keep their part of the invariant while the lock file stays as it is. */
  lemma SameFileKeepsInv(s: State, a: nat, phase: Phase)
    requires Inv(s) && a in s.attempts && AttemptInv(To(s, a, phase), a)
    ensures Inv(To(s, a, phase))
  {
    var s' := To(s, a, phase);
    forall x | x in s'.attempts
      ensures AttemptInv(s', x)
    {
      assert AttemptInv(s, x);
      assert forall y | y in s.attempts :: Alive(s', y) == Alive(s, y);
    }
  }

  lemma LinkKeepsInv(s: State, a: nat)
    requires Inv(s) && Alive(s, a)
    ensures Inv(Act(s, a, Link(a)))
  {
    var s' := Act(s, a, Link(a));
    forall x | x in s'.attempts
      ensures AttemptInv(s', x)
    {
      assert AttemptInv(s, x);
      assert forall y | y in s.attempts :: Alive(s', y) == Alive(s, y);
    }
  }

  /** Taking the file away is harmless when no other live attempt holds it. */
  lemma ClearKeepsInv(s: State, a: nat, phase: Phase)
    requires Inv(s) && a in s.attempts && (phase.Trying? || phase.Gone?)
    requires forall x | x in s.attempts && x != a :: !Holds(s, x)
    ensures Inv(To(s.(file := None), a, phase))
  {
    var s' := To(s.(file := None), a, phase);
    forall x | x in s'.attempts
      ensures AttemptInv(s', x)
    {
      assert AttemptInv(s, x);
      assert forall y | y in s.attempts :: Alive(s', y) == Alive(s, y);
    }
  }

  lemma BreakKeepsInv(s: State, a: nat)
    requires Inv(s) && Alive(s, a) && Enabled(s, Break(a))
    ensures Inv(Act(s, a, Break(a)))
  {
    if s.attempts[a].phase.Breaking? {
      assert AttemptInv(s, a);
      forall x | x in s.attempts && x != a
        ensures !Holds(s, x)
      {
        assert AttemptInv(s, x);
      }
      ClearKeepsInv(s, a, Trying);
    }
  }

  lemma ReleaseKeepsInv(s: State, a: nat)
    requires Inv(s) && Alive(s, a)
    ensures Inv(Act(s, a, Release(a)))
  {
    if s.attempts[a].phase.Releasing? {
      assert AttemptInv(s, a);
      forall x | x in s.attempts && x != a
        ensures !Holds(s, x)
      {
        assert AttemptInv(s, x);
      }
      ClearKeepsInv(s, a, Gone);
    }
  }

  lemma LookKeepsInv(s: State, a: nat, e: Event)
    requires Inv(s) && Alive(s, a) && Enabled(s, e)
    requires e == Stat(a) || e == Recheck(a) || e == CheckRelease(a) || e == Abandon(a) || (e.ReadOwner? && e.a == a)
    ensures Inv(Act(s, a, e))
  {
    var s' := Act(s, a, e);
    assert AttemptInv(s, a);
    if s' != s {
      var phase := s'.attempts[a].phase;
      assert s' == To(s, a, phase) by {
        assert s'.attempts == To(s, a, phase).attempts;
      }
      if e.ReadOwner? {
        assert s.file.Some? ==> Alive(s', s.file.value.owner) == Alive(s, s.file.value.owner);
      }
      if e.Recheck? && phase.Breaking? {
        assert Alive(s', s.file.value.owner) == Alive(s, s.file.value.owner);
      }
      assert AttemptInv(s', a);
      SameFileKeepsInv(s, a, phase);
    }
  }

  lemma DieKeepsInv(s: State, pid: nat)
    requires Inv(s)
    ensures Inv(s.(dead := s.dead + {pid}))
  {
    var s' := s.(dead := s.dead + {pid});
    forall x | x in s'.attempts
      ensures AttemptInv(s', x)
    {
      assert AttemptInv(s, x);
    }
  }

  lemma StartKeepsInv(s: State, a: nat, pid: nat)
    requires Inv(s) && a !in s.attempts
    ensures Inv(s.(attempts := s.attempts[a := Attempt(pid, Trying)]))
  {
    var s' := s.(attempts := s.attempts[a := Attempt(pid, Trying)]);
    forall x | x in s'.attempts
      ensures AttemptInv(s', x)
    {
      if x != a { assert AttemptInv(s, x); }
      assert forall y | y in s.attempts :: Alive(s', y) == Alive(s, y);
    }
  }

  lemma StepKeepsInv(s: State, e: Event)
    requires Inv(s) && Enabled(s, e)
    ensures Inv(Step(s, e))
  {
    match e {
      case Start(a, pid) => if a !in s.attempts { StartKeepsInv(s, a, pid); }
      case Die(pid) => DieKeepsInv(s, pid);
      case Link(a) => if Alive(s, a) { LinkKeepsInv(s, a); }
      case Break(a) => if Alive(s, a) { BreakKeepsInv(s, a); }
      case Release(a) => if Alive(s, a) { ReleaseKeepsInv(s, a); }
      case _ => if Alive(s, e.a) { LookKeepsInv(s, e.a, e); }
    }
  }

  ghost predicate RunOf(s: State, events: seq<Event>)
    decreases |events|
  {
    events == [] || (Enabled(s, events[0]) && RunOf(Step(s, events[0]), events[1..]))
  }

  function After(s: State, events: seq<Event>): State
    decreases |events|
  {
    if events == [] then s else After(Step(s, events[0]), events[1..])
  }

  lemma {:induction false} RunKeepsInv(s: State, events: seq<Event>)
    requires Inv(s) && RunOf(s, events)
    ensures Inv(After(s, events))
    decreases |events|
  {
    if events == [] {
    } else {
      StepKeepsInv(s, events[0]);
      RunKeepsInv(Step(s, events[0]), events[1..]);
    }
  }

  // ---- the results ----

  /** At most one live holder, in every reachable state. */
  lemma MutualExclusion(events: seq<Event>, a: nat, b: nat)
    requires RunOf(INITIAL, events)
    requires Holds(After(INITIAL, events), a) && Holds(After(INITIAL, events), b)
    ensures a == b
  {
    var s := After(INITIAL, events);
    RunKeepsInv(INITIAL, events);
    assert AttemptInv(s, a) && AttemptInv(s, b);
  }

  /** A release takes away the releaser's own lock and no other, though its check and its unlink are two steps. */
  lemma ReleaseTakesOwnLock(events: seq<Event>, a: nat)
    requires RunOf(INITIAL, events) && Holds(After(INITIAL, events), a)
    ensures var s := After(INITIAL, events);
            var released := Step(Step(s, CheckRelease(a)), Release(a));
            s.file == Some(LockFile(s.attempts[a].phase.ino, a)) && released.file == None && !Holds(released, a)
  {
    RunKeepsInv(INITIAL, events);
    assert AttemptInv(After(INITIAL, events), a);
  }

  /** An attempt of a live process ends in two ways only: it gives up while it does not hold the lock, or it releases
      the lock it holds. */
  lemma AttemptEndsExactly(s: State, a: nat, e: Event)
    requires Inv(s) && Alive(s, a) && !s.attempts[a].phase.Gone?
    ensures Step(s, e).attempts[a].phase.Gone? <==>
            (e == Abandon(a) && !Owns(s.attempts[a].phase)) || (e == Release(a) && s.attempts[a].phase.Releasing?)
  {
    assert AttemptInv(s, a);
  }

  /** When is breaking a lock harmless? In every state that can be reached: no later run has two live holders if and
      only if what lies at the path at that moment belongs to no live holder. */
  lemma BreakIsSafeExactly(s: State, a: nat)
    requires Inv(s) && Alive(s, a) && s.attempts[a].phase.Breaking?
    ensures var broken := Step(s, Break(a));
            (forall events | RunOf(broken, events) :: OneHolder(After(broken, events))) <==>
            !(exists h :: Holds(s, h) && s.file.Some? && s.file.value.owner == h)
  {
    var broken := Step(s, Break(a));
    if h :| Holds(s, h) && s.file.Some? && s.file.value.owner == h {
      assert AttemptInv(s, h);
      var events := NextTakesLock(s, a, h);
      assert !OneHolder(After(broken, events));
    } else {
      BreakingNobodys(s, a);
      forall events | RunOf(broken, events)
        ensures OneHolder(After(broken, events))
      {
        RunKeepsInv(broken, events);
        InvHasOneHolder(After(broken, events));
      }
    }
  }

  ghost predicate OneHolder(s: State) {
    forall a, b | Holds(s, a) && Holds(s, b) :: a == b
  }

  lemma InvHasOneHolder(s: State)
    requires Inv(s)
    ensures OneHolder(s)
  {
    forall a, b | Holds(s, a) && Holds(s, b)
      ensures a == b
    {
      assert AttemptInv(s, a) && AttemptInv(s, b);
    }
  }

  lemma BreakingNobodys(s: State, a: nat)
    requires Inv(s) && Alive(s, a) && s.attempts[a].phase.Breaking?
    requires !exists h :: Holds(s, h) && s.file.Some? && s.file.value.owner == h
    ensures Inv(Step(s, Break(a)))
  {
    forall x | x in s.attempts && x != a
      ensures !Holds(s, x)
    {
      assert AttemptInv(s, x);
    }
    ClearKeepsInv(s, a, Trying);
  }

  // ---- getting the lock ----

  /** Without a lock file, the next link succeeds and makes its process the holder. */
  lemma FreeLockIsTaken(s: State, a: nat)
    requires Alive(s, a) && s.attempts[a].phase.Trying? && s.file.None?
    ensures Holds(Step(s, Link(a)), a) && Step(s, Link(a)).file == Some(LockFile(s.nextIno, a))
  {}

  /** The steps by which an attempt takes over a lock it finds stale. */
  function TakeOver(a: nat): seq<Event> {
    [Link(a), Stat(a), ReadOwner(a, true), Recheck(a), Break(a), Link(a)]
  }

  /** The lock of a dead process is taken over, if nobody else acts in between. */
  lemma StaleLockIsTakenOver(s: State, a: nat)
    requires Inv(s) && Alive(s, a) && s.attempts[a].phase.Trying?
    requires s.file.Some? && !Alive(s, s.file.value.owner)
    ensures RunOf(s, TakeOver(a)) && Holds(After(s, TakeOver(a)), a)
  {
    var file := s.file.value;
    var looking := To(s, a, Looking);
    var seen := To(s, a, Seen(file.ino));
    var judged := To(s, a, Judged(file.ino, file, true));
    var breaking := To(s, a, Breaking(file));
    var broken := To(s.(file := None), a, Trying);
    var held := Step(broken, Link(a));
    forall p, q
      ensures To(To(s, a, p), a, q) == To(s, a, q)
    {
      ToTwice(s, a, p, q);
    }
    assert Step(breaking, Break(a)).attempts == broken.attempts;
    var e6 := RunStep(broken, Link(a), held, [], held);
    var e5 := RunStep(breaking, Break(a), broken, e6, held);
    var e4 := RunStep(judged, Recheck(a), breaking, e5, held);
    var e3 := RunStep(seen, ReadOwner(a, true), judged, e4, held);
    var e2 := RunStep(looking, Stat(a), seen, e3, held);
    var e1 := RunStep(s, Link(a), looking, e2, held);
    assert e1 == TakeOver(a);
  }

  lemma ToTwice(s: State, a: nat, p: Phase, q: Phase)
    requires a in s.attempts
    ensures To(To(s, a, p), a, q) == To(s, a, q)
  {
    assert To(To(s, a, p), a, q).attempts == To(s, a, q).attempts;
  }

  lemma RunStep(s: State, e: Event, next: State, rest: seq<Event>, end: State) returns (events: seq<Event>)
    requires Enabled(s, e) && Step(s, e) == next && RunOf(next, rest) && After(next, rest) == end
    ensures events == [e] + rest && RunOf(s, events) && After(s, events) == end
  {
    events := [e] + rest;
    assert events[1..] == rest;
  }

  /** The lock of a live process is left alone: whoever looks at it without a stale verdict tries again. */
  lemma LiveLockIsRespected(s: State, a: nat, b: nat)
    requires Inv(s) && Holds(s, b) && Alive(s, a) && s.attempts[a].phase.Trying?
    ensures var t := Step(Step(Step(Step(s, Link(a)), Stat(a)), ReadOwner(a, false)), Recheck(a));
            t.file == s.file && t.attempts == s.attempts && Holds(t, b)
  {
    assert AttemptInv(s, b);
    var t := Step(Step(Step(Step(s, Link(a)), Stat(a)), ReadOwner(a, false)), Recheck(a));
    assert t.attempts == s.attempts;
  }

  /** The holder's lock is gone from the path, so the next attempt links its own. */
  lemma NextTakesLock(s: State, a: nat, h: nat) returns (events: seq<Event>)
    requires Alive(s, a) && s.attempts[a].phase.Breaking? && Holds(s, h)
    ensures RunOf(Step(s, Break(a)), events) && !OneHolder(After(Step(s, Break(a)), events))
  {
    var broken := Step(s, Break(a));
    var c := Unused(s.attempts.Keys);
    events := [Start(c, s.attempts[a].pid), Link(c)];
    var started := Step(broken, Start(c, s.attempts[a].pid));
    var linked := Step(started, Link(c));
    assert events[1..] == [Link(c)] && [Link(c)][1..] == [];
    assert RunOf(started, [Link(c)]) && After(started, [Link(c)]) == linked;
    assert Holds(linked, c) && Holds(linked, h) && c != h;
  }

  lemma Unused(taken: set<nat>) returns (c: nat)
    ensures c !in taken
  {
    c := 0;
    var left := taken;
    while c in left
      invariant forall x | x in taken :: x in left || x < c
      decreases left
    {
      left := left - {c};
      c := c + 1;
    }
    assert c in taken ==> c in left;
  }

  /** Runs in which stale verdicts are right, but a break may come late. */
  ghost predicate TrueVerdicts(s: State, events: seq<Event>)
    decreases |events|
  {
    events == [] || ((events[0].Break? || Enabled(s, events[0])) && TrueVerdicts(Step(s, events[0]), events[1..]))
  }

  /** The second look and the unlink are separate calls. Two attempts that both find the same dead lock can both pass
      the second look; the later unlink then takes the lock of whoever acquired it in between. */
  lemma LateBreakAdmitsTwoHolders()
    ensures exists events, a, b ::
              var s := After(INITIAL, events); TrueVerdicts(INITIAL, events) && a != b && Holds(s, a) && Holds(s, b)
  {
    var f := LockFile(0, 0);
    var dead := Attempt(0, Holding(0));
    var x := State(Some(f), 1, map[0 := dead, 1 := Attempt(1, Breaking(f)), 2 := Attempt(1, Breaking(f)),
        3 := Attempt(1, Trying)], {0});
    var y := x.(file := None, attempts := x.attempts[1 := Attempt(1, Trying)]);
    var held := Attempt(1, Holding(1));
    var z := State(Some(LockFile(1, 1)), 2, y.attempts[1 := held], {0});
    var u := z.(file := None, attempts := z.attempts[2 := Attempt(1, Trying)]);
    var v := State(Some(LockFile(2, 3)), 3, u.attempts[3 := Attempt(1, Holding(2))], {0});
    var e3 := AfterCons(u, Link(3), v, [], v);
    var e2 := AfterCons(z, Break(2), u, e3, v);
    var e1 := AfterCons(y, Link(1), z, e2, v);
    var e0 := AfterCons(x, Break(1), y, e1, v);
    var events := ReachTwoBreakers(x, e0, v);
    assert Holds(After(INITIAL, events), 1) && Holds(After(INITIAL, events), 3);
  }

  lemma ReachTwoBreakers(x: State, rest: seq<Event>, end: State) returns (events: seq<Event>)
    requires x == State(Some(LockFile(0, 0)), 1,
                        map[0 := Attempt(0, Holding(0)), 1 := Attempt(1, Breaking(LockFile(0, 0))),
                            2 := Attempt(1, Breaking(LockFile(0, 0))), 3 := Attempt(1, Trying)], {0})
    requires TrueVerdicts(x, rest) && After(x, rest) == end
    ensures TrueVerdicts(INITIAL, events) && After(INITIAL, events) == end
  {
    var f := LockFile(0, 0);
    var d, t := Attempt(0, Holding(0)), Attempt(1, Trying);
    var s3 := State(Some(f), 1, map[0 := d, 1 := t, 2 := t], {0});
    var e3 := JudgeTwice(s3, x, rest, end);
    var s2 := State(Some(f), 1, map[0 := d, 1 := t], {0});
    assert Step(s2, Start(2, 1)) == s3;
    var e2 := AfterCons(s2, Start(2, 1), s3, e3, end);
    var s1 := State(Some(f), 1, map[0 := d], {0});
    assert Step(s1, Start(1, 1)) == s2;
    var e1 := AfterCons(s1, Start(1, 1), s2, e2, end);
    var s0 := State(Some(f), 1, map[0 := d], {});
    var e0 := AfterCons(s0, Die(0), s1, e1, end);
    var begun := State(None, 0, map[0 := Attempt(0, Trying)], {});
    assert Step(begun, Link(0)) == s0;
    var linked := AfterCons(begun, Link(0), s0, e0, end);
    events := AfterCons(INITIAL, Start(0, 0), begun, linked, end);
  }

  /** Two attempts look at the same dead lock, judge it stale, and both pass the second look. */
  lemma JudgeTwice(s3: State, x: State, rest: seq<Event>, end: State) returns (events: seq<Event>)
    requires var f, d, t, b := LockFile(0, 0), Attempt(0, Holding(0)), Attempt(1, Trying),
               Attempt(1, Breaking(LockFile(0, 0)));
             && s3 == State(Some(f), 1, map[0 := d, 1 := t, 2 := t], {0})
             && x == State(Some(f), 1, map[0 := d, 1 := b, 2 := b, 3 := t], {0})
    requires TrueVerdicts(x, rest) && After(x, rest) == end
    ensures TrueVerdicts(s3, events) && After(s3, events) == end
  {
    var judged, breaking := Judged(0, LockFile(0, 0), true), Breaking(LockFile(0, 0));
    var s4 := To(s3, 1, judged);
    var s5 := To(s4, 2, judged);
    var s6 := To(s5, 1, breaking);
    var s7 := To(s6, 2, breaking);
    assert Step(s7, Start(3, 1)).attempts == x.attempts;
    var e7 := AfterCons(s7, Start(3, 1), x, rest, end);
    var e6 := AfterCons(s6, Recheck(2), s7, e7, end);
    var e5 := AfterCons(s5, Recheck(1), s6, e6, end);
    var e4 := JudgeStale(s4, 2, e5, end);
    events := JudgeStale(s3, 1, e4, end);
  }

  lemma JudgeStale(s: State, a: nat, rest: seq<Event>, end: State) returns (events: seq<Event>)
    requires Alive(s, a) && s.attempts[a].phase.Trying? && s.file.Some? && !Alive(s, s.file.value.owner)
    requires var t := To(s, a, Judged(s.file.value.ino, s.file.value, true));
             TrueVerdicts(t, rest) && After(t, rest) == end
    ensures TrueVerdicts(s, events) && After(s, events) == end
  {
    var looking := To(s, a, Looking);
    var seen := To(s, a, Seen(s.file.value.ino));
    var judged := To(s, a, Judged(s.file.value.ino, s.file.value, true));
    assert Step(seen, ReadOwner(a, true)) == judged by {
        assert To(seen, a, judged.attempts[a].phase).attempts == judged.attempts; }
    var e2 := AfterCons(seen, ReadOwner(a, true), judged, rest, end);
    assert Step(looking, Stat(a)) == seen by {
        assert To(looking, a, seen.attempts[a].phase).attempts == seen.attempts; }
    var e1 := AfterCons(looking, Stat(a), seen, e2, end);
    events := AfterCons(s, Link(a), looking, e1, end);
  }

  lemma AfterCons(s: State, e: Event, next: State, rest: seq<Event>, end: State) returns (events: seq<Event>)
    requires (e.Break? || Enabled(s, e)) && Step(s, e) == next && TrueVerdicts(next, rest) && After(next, rest) == end
    ensures events == [e] + rest && TrueVerdicts(s, events) && After(s, events) == end
  {
    events := [e] + rest;
    assert events[1..] == rest;
  }
}
