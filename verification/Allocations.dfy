/** The allocation tracker and the sweep over mutable state: between two awaits each method runs as one step of
    ModalLog and keeps every live sandbox tracked. Create and Sweep run the steps in a row, with nobody in between. */
module Allocations {
  import opened Basics
  import opened ModalLog

  class ModalAllocations {
    var kv: map<Key, Record>
    var allocating: set<Key>
    var live: map<nat, Name>
    var nextId: nat
    var creators: map<nat, Creator>
    var sweepers: map<nat, Sweeper>

    function View(): State
      reads this
    {
      State(kv, live, nextId, allocating, creators, sweepers)
    }

    /** The invariant of ModalLog; in particular every live sandbox has a record. */
    ghost predicate Valid()
      reads this
    {
      Inv(View()) && NoneOrphaned(View())
    }

    constructor ()
      ensures View() == INITIAL && Valid()
    {
      kv, allocating, live, nextId, creators, sweepers := map[], {}, map[], 0, map[], map[];
    }

    /** create(): up to the write of the pending record. */
    method BeginCreate(p: nat, name: Name, expiresAt: int)
      requires Valid() && p !in creators
      requires NameIdle(View(), name)
      modifies this
      ensures View() == Step(old(View()), Begin(p, name, expiresAt)) && Valid()
      ensures Pending(name) in allocating
    {
      StepKeepsInv(View(), Begin(p, name, expiresAt));
      allocating := allocating + {Pending(name)};
      creators := creators[p := Creator(name, expiresAt, Started)];
    }

    method NotePending(p: nat)
      requires Valid() && p in creators && creators[p].stage.Started?
      modifies this
      ensures View() == Step(old(View()), Note(p)) && Valid()
      ensures Pending(creators[p].name) in kv
    {
      StepKeepsInv(View(), Note(p));
      var c := creators[p];
      kv := kv[Pending(c.name) := Record(c.name, None, c.expiresAt)];
      creators := creators[p := c.(stage := Noted)];
    }

    /** client.create(request) has taken effect; its reply may be lost. */
    method SandboxMade(p: nat, lost: bool) returns (id: nat)
      requires Valid() && p in creators && creators[p].stage.Noted?
      requires NameFree(View(), creators[p].name)
      modifies this
      ensures id == old(nextId) && View() == Step(old(View()), Make(p, lost)) && Valid()
      ensures id in live && Pending(live[id]) in kv
    {
      StepKeepsInv(View(), Make(p, lost));
      id := nextId;
      live, nextId := live[id := creators[p].name], nextId + 1;
      if lost {
        allocating := allocating - {Pending(creators[p].name)};
        creators := creators - {p};
      } else {
        creators := creators[p := creators[p].(stage := Created(id))];
      }
    }

    method RememberCreated(p: nat)
      requires Valid() && p in creators && creators[p].stage.Created?
      modifies this
      ensures View() == Step(old(View()), Remember(p)) && Valid()
      ensures ById(old(creators[p]).stage.id) in kv
    {
      StepKeepsInv(View(), Remember(p));
      var c := creators[p];
      SetById(c.stage.id, Record(c.name, None, c.expiresAt));
      creators := creators[p := c.(stage := Remembered(c.stage.id))];
    }

    method ClearPending(p: nat)
      requires Valid() && p in creators && creators[p].stage.Remembered?
      modifies this
      ensures View() == Step(old(View()), Clear(p)) && Valid()
      ensures Pending(old(creators[p]).name) !in kv
    {
      StepKeepsInv(View(), Clear(p));
      kv := kv - {Pending(creators[p].name)};
      creators := creators[p := creators[p].(stage := Cleared)];
    }

    /** The finally block. */
    method EndCreate(p: nat)
      requires Valid() && p in creators
      modifies this
      ensures View() == Step(old(View()), Finish(p)) && Valid()
      ensures Pending(old(creators[p]).name) !in allocating && kv == old(kv)
    {
      StepKeepsInv(View(), Finish(p));
      allocating := allocating - {Pending(creators[p].name)};
      creators := creators - {p};
    }

    /** remember(): the record of a sandbox under its own id. */
    method SetById(id: nat, record: Record)
      modifies this`kv
      ensures kv == old(kv)[ById(id) := record.(sandbox := Some(id))]
    {
      kv := kv[ById(id) := record.(sandbox := Some(id))];
    }

    /** terminate(): once the provider no longer knows the sandbox, its record goes. */
    method ForgetIfGone(id: nat)
      requires Valid()
      modifies this`kv
      ensures View() == Step(old(View()), Forget(id)) && Valid()
      ensures id !in live ==> ById(id) !in kv
    {
      StepKeepsInv(View(), Forget(id));
      if id !in live { kv := kv - {ById(id)}; }
    }

    // ---- the sweep of one key ----

    method BeginSweep(q: nat, key: Key)
      requires Valid() && q !in sweepers
      modifies this`sweepers
      ensures View() == Step(old(View()), SweepBegin(q, key)) && Valid()
      ensures q in sweepers ==> forall p | p in creators :: Pending(creators[p].name) != key
    {
      StepKeepsInv(View(), SweepBegin(q, key));
      if key in allocating { return; }
      sweepers := sweepers[q := Sweeper(key, Reading)];
    }

    method ReadRecord(q: nat, account: string)
      requires Valid() && q in sweepers && sweepers[q].stage.Reading?
      modifies this`sweepers
      ensures View() == Step(old(View()), SweepRead(q, account)) && Valid()
    {
      StepKeepsInv(View(), SweepRead(q, account));
      var key := sweepers[q].key;
      if key !in kv || kv[key].of.account != account {
        sweepers := sweepers - {q};
      } else {
        sweepers := sweepers[q := Sweeper(key, Looking(kv[key]))];
      }
    }

    method LookedUp(q: nat, now: int, found: Option<nat>)
      requires Valid() && q in sweepers && sweepers[q].stage.Looking?
      requires Accurate(View(), sweepers[q].stage.record, found)
      modifies this`sweepers
      ensures View() == Step(old(View()), SweepLook(q, now, found)) && Valid()
      ensures found.Some? && q in sweepers ==> sweepers[q].stage.Remembering?
    {
      StepKeepsInv(View(), SweepLook(q, now, found));
      var key, record := sweepers[q].key, sweepers[q].stage.record;
      if found.None? && (record.sandbox.Some? || now >= record.expiresAt) {
        sweepers := sweepers[q := Sweeper(key, Removing)];
      } else if found.Some? && record.sandbox.None? {
        sweepers := sweepers[q := Sweeper(key, Remembering(record, found.value))];
      } else {
        sweepers := sweepers - {q};
      }
    }

    method RemoveRecord(q: nat)
      requires Valid() && q in sweepers && sweepers[q].stage.Removing?
      modifies this
      ensures View() == Step(old(View()), SweepRemove(q)) && Valid()
      ensures old(sweepers[q]).key !in kv
    {
      StepKeepsInv(View(), SweepRemove(q));
      kv := kv - {sweepers[q].key};
      sweepers := sweepers - {q};
    }

    method RememberFound(q: nat)
      requires Valid() && q in sweepers && sweepers[q].stage.Remembering?
      modifies this
      ensures View() == Step(old(View()), SweepRemember(q)) && Valid()
      ensures ById(old(sweepers[q]).stage.id) in kv
    {
      StepKeepsInv(View(), SweepRemember(q));
      var key, id := sweepers[q].key, sweepers[q].stage.id;
      SetById(id, sweepers[q].stage.record);
      sweepers := sweepers[q := Sweeper(key, Clearing(id))];
    }

    method ClearSwept(q: nat)
      requires Valid() && q in sweepers && sweepers[q].stage.Clearing?
      modifies this
      ensures View() == Step(old(View()), SweepClear(q)) && Valid()
      ensures old(sweepers[q]).key !in kv
    {
      StepKeepsInv(View(), SweepClear(q));
      kv := kv - {sweepers[q].key};
      sweepers := sweepers - {q};
    }

    // ---- whole calls, with nobody in between ----

    /** create(): afterwards the sandbox has a record under its id, and nothing is pending. */
    method Create(p: nat, name: Name, expiresAt: int) returns (id: nat)
      requires Valid() && p !in creators && NameIdle(View(), name) && NameFree(View(), name)
      modifies this
      ensures Valid() && id == old(nextId)
      ensures live == old(live)[id := name] && creators == old(creators) && sweepers == old(sweepers)
      ensures kv == (old(kv) - {Pending(name)})[ById(id) := Record(name, Some(id), expiresAt)]
    {
      ghost var s := View();
      NoteNewPending(p, name, expiresAt);
      id := SandboxMade(p, false);
      RecordCreated(p);
      CreateEnds(s, p, name, expiresAt);
    }

    method NoteNewPending(p: nat, name: Name, expiresAt: int)
      requires Valid() && p !in creators && NameIdle(View(), name)
      modifies this
      ensures View() == Step(Step(old(View()), Begin(p, name, expiresAt)), Note(p)) && Valid()
    {
      BeginCreate(p, name, expiresAt);
      NotePending(p);
    }

    method RecordCreated(p: nat)
      requires Valid() && p in creators && creators[p].stage.Created?
      modifies this
      ensures View() == Step(Step(Step(old(View()), Remember(p)), Clear(p)), Finish(p)) && Valid()
    {
      RememberCreated(p);
      ClearPending(p);
      EndCreate(p);
    }

    /** One round of the sweep loop, with what the provider's lookup finds. */
    method Sweep(q: nat, key: Key, account: string, now: int, found: Option<nat>)
      requires Valid() && q !in sweepers && (key in kv ==> Accurate(View(), kv[key], found))
      modifies this
      ensures Valid() && sweepers == old(sweepers) && live == old(live) && creators == old(creators)
      ensures kv ==
                if key in old(allocating) || key !in old(kv) || old(kv[key]).of.account != account then old(kv)
                else Swept(old(kv), key, now, found)
    {
      ghost var s := View();
      var read := StartSweep(q, key, account);
      if !read {
        StartEnds(s, q, key, account);
        return;
      }
      FinishSweep(q, now, found);
      SweepCompletes(s, q, key, account, now, found);
    }

    method StartSweep(q: nat, key: Key, account: string) returns (read: bool)
      requires Valid() && q !in sweepers
      modifies this
      ensures View() == Start(old(View()), q, key, account) && Valid() && read == (q in sweepers)
    {
      BeginSweep(q, key);
      if q in sweepers { ReadRecord(q, account); }
      read := q in sweepers;
    }

    method FinishSweep(q: nat, now: int, found: Option<nat>)
      requires Valid() && q in sweepers && sweepers[q].stage.Looking?
      requires Accurate(View(), sweepers[q].stage.record, found)
      modifies this
      ensures View() == Conclude(old(View()), q, now, found) && Valid()
    {
      LookedUp(q, now, found);
      if q !in sweepers { return; }
      if sweepers[q].stage.Removing? {
        RemoveRecord(q);
      } else {
        ReplaceRecord(q);
      }
    }

    method ReplaceRecord(q: nat)
      requires Valid() && q in sweepers && sweepers[q].stage.Remembering?
      modifies this
      ensures View() == Step(Step(old(View()), SweepRemember(q)), SweepClear(q)) && Valid()
    {
      RememberFound(q);
      ClearSwept(q);
    }
  }

  /** What the sweep leaves of the store when it has looked a record up. */
  function Swept(kv: map<Key, Record>, key: Key, now: int, found: Option<nat>): map<Key, Record>
    requires key in kv
  {
    if found.None? then if kv[key].sandbox.Some? || now >= kv[key].expiresAt then kv - {key} else kv
    else if kv[key].sandbox.None? then kv[ById(found.value) := kv[key].(sandbox := found)] - {key}
    else kv
  }

  /** What a round of the sweep does to a record: a pending one survives exactly while its sandbox has not been found
      and it has not expired, one under an id exactly while its sandbox lives. What is found behind a pending record
      gets a record under its id, with the same account, app, name and expiry; nothing else changes. */
  lemma RecordSurvivesExactly(s: State, key: Key, now: int, found: Option<nat>)
    requires KvInv(s) && key in s.kv && Accurate(s, s.kv[key], found)
    ensures var swept := Swept(s.kv, key, now, found);
            && (key in swept <==>
                  if key.Pending? then found.None? && now < s.kv[key].expiresAt else key.id in s.live)
            && (key.Pending? && found.Some? ==>
                  ById(found.value) in swept &&
                  swept[ById(found.value)] == Record(key.of, found, s.kv[key].expiresAt))
            && (forall k | k != key && !(key.Pending? && found.Some? && k == ById(found.value)) ::
                  (k in swept <==> k in s.kv) && (k in s.kv ==> swept[k] == s.kv[k]))
            && (key in swept ==> swept[key] == s.kv[key])
  {}

  /** The sweep of a key up to its lookup. */
  function Start(s: State, q: nat, key: Key, account: string): State {
    var begun := Step(s, SweepBegin(q, key));
    if q in begun.sweepers then Step(begun, SweepRead(q, account)) else begun
  }

  /** From the lookup to the end of the round. */
  function Conclude(s: State, q: nat, now: int, found: Option<nat>): State {
    var looked := Step(s, SweepLook(q, now, found));
    if q !in looked.sweepers then looked
    else if looked.sweepers[q].stage.Removing? then Step(looked, SweepRemove(q))
    else Step(Step(looked, SweepRemember(q)), SweepClear(q))
  }

  lemma StartEnds(s: State, q: nat, key: Key, account: string)
    requires q !in s.sweepers
    ensures var read := Start(s, q, key, account);
            && read.kv == s.kv && read.live == s.live && read.creators == s.creators
            && (q in read.sweepers <==> key !in s.allocating && key in s.kv && s.kv[key].of.account == account)
            && (if q in read.sweepers then read.sweepers == s.sweepers[q := Sweeper(key, Looking(s.kv[key]))]
                else read.sweepers == s.sweepers)
  {
    var read := Start(s, q, key, account);
    if key !in s.allocating {
      assert s.sweepers[q := Sweeper(key, Reading)] - {q} == s.sweepers;
      assert key in s.kv ==> s.sweepers[q := Sweeper(key, Reading)][q := Sweeper(key, Looking(s.kv[key]))] ==
                             s.sweepers[q := Sweeper(key, Looking(s.kv[key]))];
    }
  }

  lemma ConcludeEnds(s: State, q: nat, now: int, found: Option<nat>)
    requires q in s.sweepers && s.sweepers[q].stage.Looking? && s.sweepers[q].key in s.kv
    requires s.sweepers[q].stage.record == s.kv[s.sweepers[q].key]
    ensures var end := Conclude(s, q, now, found);
            && end.live == s.live && end.creators == s.creators && end.sweepers == s.sweepers - {q}
            && end.kv == Swept(s.kv, s.sweepers[q].key, now, found)
  {
    var key, record := s.sweepers[q].key, s.sweepers[q].stage.record;
    var looked := Step(s, SweepLook(q, now, found));
    if found.None? && (record.sandbox.Some? || now >= record.expiresAt) {
      assert looked.sweepers == s.sweepers[q := Sweeper(key, Removing)];
      SetThenRemoved(s.sweepers, q, Sweeper(key, Removing));
    } else if found.Some? && record.sandbox.None? {
      assert looked.sweepers == s.sweepers[q := Sweeper(key, Remembering(record, found.value))];
      var cleared := Sweeper(key, Clearing(found.value));
      assert looked.sweepers[q := cleared] == s.sweepers[q := cleared];
      SetThenRemoved(s.sweepers, q, cleared);
    } else {
      assert looked.sweepers == s.sweepers - {q};
    }
  }

  lemma SetThenRemoved(sweepers: map<nat, Sweeper>, q: nat, w: Sweeper)
    ensures sweepers[q := w] - {q} == sweepers - {q}
  {}

  lemma SweepCompletes(s: State, q: nat, key: Key, account: string, now: int, found: Option<nat>)
    requires q !in s.sweepers && key !in s.allocating && key in s.kv && s.kv[key].of.account == account
    ensures var end := Conclude(Start(s, q, key, account), q, now, found);
            && end.live == s.live && end.creators == s.creators && end.sweepers == s.sweepers
            && end.kv == Swept(s.kv, key, now, found)
  {
    var read := Start(s, q, key, account);
    StartEnds(s, q, key, account);
    ConcludeEnds(read, q, now, found);
    assert read.sweepers - {q} == s.sweepers;
  }

  lemma CreateEnds(s: State, p: nat, n: Name, expiresAt: int)
    requires p !in s.creators
    ensures var made := Step(Step(Step(s, Begin(p, n, expiresAt)), Note(p)), Make(p, false));
            var end := Step(Step(Step(made, Remember(p)), Clear(p)), Finish(p));
            && end.live == s.live[s.nextId := n] && end.creators == s.creators && end.sweepers == s.sweepers
            && end.kv == (s.kv - {Pending(n)})[ById(s.nextId) := Record(n, Some(s.nextId), expiresAt)]
  {
    var made := Step(Step(Step(s, Begin(p, n, expiresAt)), Note(p)), Make(p, false));
    SandboxIsMade(s, p, n, expiresAt);
    RecordIsKept(made, p, n, s.nextId, expiresAt);
    assert made.creators - {p} == s.creators;
    assert made.kv - {Pending(n)} == s.kv - {Pending(n)};
  }

  lemma SandboxIsMade(s: State, p: nat, n: Name, expiresAt: int)
    requires p !in s.creators
    ensures var made := Step(Step(Step(s, Begin(p, n, expiresAt)), Note(p)), Make(p, false));
            && made.kv == s.kv[Pending(n) := Record(n, None, expiresAt)] && made.live == s.live[s.nextId := n]
            && made.sweepers == s.sweepers && made.creators == s.creators[p := Creator(n, expiresAt, Created(s.nextId))]
  {
    var begun := Step(s, Begin(p, n, expiresAt));
    assert begun.creators[p := Creator(n, expiresAt, Noted)] == s.creators[p := Creator(n, expiresAt, Noted)];
  }

  lemma RecordIsKept(made: State, p: nat, n: Name, id: nat, expiresAt: int)
    requires p in made.creators && made.creators[p] == Creator(n, expiresAt, Created(id))
    ensures var end := Step(Step(Step(made, Remember(p)), Clear(p)), Finish(p));
            && end.live == made.live && end.creators == made.creators - {p} && end.sweepers == made.sweepers
            && end.kv == (made.kv - {Pending(n)})[ById(id) := Record(n, Some(id), expiresAt)]
  {
    var remembered := Step(made, Remember(p));
    var cleared := Step(remembered, Clear(p));
    assert cleared.kv == (made.kv - {Pending(n)})[ById(id) := Record(n, Some(id), expiresAt)];
    assert cleared.creators - {p} == made.creators - {p};
  }
}
