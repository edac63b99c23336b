/** A create that the provider carries out late: the request outlived the process, or the call, that made it. */
module LateCreate {
  import opened Basics
  import opened ModalLog

  /** The provider makes the sandbox; nobody waits for the reply any more. */
  function Arrive(s: State, n: Name): State {
    s.(live := s.live[s.nextId := n], nextId := s.nextId + 1)
  }

  /** Its pending record is there, and nobody under way is past the point of looking for its sandbox. */
  ghost predicate StillCovered(s: State, n: Name) {
    && Pending(n) in s.kv
    && (forall p | p in s.creators && s.creators[p].name == n ::
          !s.creators[p].stage.Created? && !s.creators[p].stage.Remembered?)
    && (forall q | q in s.sweepers && s.sweepers[q].key == Pending(n) ::
          s.sweepers[q].stage.Reading? || s.sweepers[q].stage.Looking?)
  }

  /** When is a late arrival harmless? In every state that can be reached: no later run orphans a sandbox if and only if
      the name is still covered. */
  lemma LateIsSafeExactly(s: State, n: Name)
    requires Inv(s) && NameFree(s, n)   // the provider refuses a name in use
    ensures (forall events | RunOf(Arrive(s, n), events) :: NoneOrphaned(After(Arrive(s, n), events))) <==>
              StillCovered(s, n)
  {
    var late := Arrive(s, n);
    if StillCovered(s, n) {
      ArrivalKeepsInv(s, n);
      forall events | RunOf(late, events)
        ensures NoneOrphaned(After(late, events))
      {
        RunKeepsInv(late, events);
      }
    } else {
      var events := OrphanAfterArrival(s, n);
      assert !NoneOrphaned(After(late, events));
    }
  }

  lemma ArrivalKeepsInv(s: State, n: Name)
    requires Inv(s) && NameFree(s, n) && StillCovered(s, n)
    ensures Inv(Arrive(s, n))
  {
    var late := Arrive(s, n);
    MakeKeepsOthers(s, late, n);
    forall id | id in late.live
      ensures id < late.nextId && Tracked(late, id)
    {
      assert id != s.nextId ==> Tracked(s, id);
    }
    forall p | p in late.creators
      ensures CreatorInv(late, late.creators[p])
    {
      assert CreatorInv(s, s.creators[p]);
    }
    forall q | q in late.sweepers
      ensures SweeperInv(late, late.sweepers[q])
    {
      assert SweeperInv(s, s.sweepers[q]);
    }
  }

  /** Whoever is past that point goes on to remove the pending record. */
  lemma OrphanAfterArrival(s: State, n: Name) returns (events: seq<Event>)
    requires Inv(s) && NameFree(s, n) && !StillCovered(s, n)
    ensures RunOf(Arrive(s, n), events) && !NoneOrphaned(After(Arrive(s, n), events))
  {
    assert ById(s.nextId) !in s.kv;
    if p :| p in s.creators && s.creators[p].name == n &&
            (s.creators[p].stage.Created? || s.creators[p].stage.Remembered?) {
      events := CreateClears(s, n, p);
    } else if q :| q in s.sweepers && s.sweepers[q].key == Pending(n) &&
                   !s.sweepers[q].stage.Reading? && !s.sweepers[q].stage.Looking? {
      events := SweepClears(s, n, q);
    } else {
      events := [];
      assert s.nextId in Arrive(s, n).live && !Tracked(Arrive(s, n), s.nextId);
    }
  }

  lemma CreateClears(s: State, n: Name, p: nat) returns (events: seq<Event>)
    requires p in s.creators && s.creators[p].name == n && ById(s.nextId) !in s.kv
    requires s.creators[p].stage.Created? || s.creators[p].stage.Remembered?
    requires s.creators[p].stage.Created? ==> s.creators[p].stage.id < s.nextId
    ensures RunOf(Arrive(s, n), events) && !NoneOrphaned(After(Arrive(s, n), events))
  {
    var late := Arrive(s, n);
    events := [];
    if s.creators[p].stage.Created? { events := Single(late, Remember(p)); }
    events := Then(late, events, Clear(p));
    assert s.nextId in After(late, events).live && !Tracked(After(late, events), s.nextId);
  }

  lemma SweepClears(s: State, n: Name, q: nat) returns (events: seq<Event>)
    requires q in s.sweepers && s.sweepers[q].key == Pending(n) && ById(s.nextId) !in s.kv
    requires !s.sweepers[q].stage.Reading? && !s.sweepers[q].stage.Looking?
    requires s.sweepers[q].stage.Remembering? ==> s.sweepers[q].stage.id < s.nextId
    ensures RunOf(Arrive(s, n), events) && !NoneOrphaned(After(Arrive(s, n), events))
  {
    var late := Arrive(s, n);
    events := [];
    if s.sweepers[q].stage.Remembering? { events := Single(late, SweepRemember(q)); }
    events := Then(late, events, if s.sweepers[q].stage.Removing? then SweepRemove(q) else SweepClear(q));
    assert s.nextId in After(late, events).live && !Tracked(After(late, events), s.nextId);
  }

  /** After a crash the pending record alone decides. */
  lemma LateAfterCrash(s: State, n: Name)
    requires Inv(s) && NameFree(s, n)
    ensures var late := Arrive(Step(s, Crash), n);
            (forall events | RunOf(late, events) :: NoneOrphaned(After(late, events))) <==> Pending(n) in s.kv
  {
    StepKeepsInv(s, Crash);
    LateIsSafeExactly(Step(s, Crash), n);
  }
}
