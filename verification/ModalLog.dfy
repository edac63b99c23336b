/** The write-ahead record around sandbox creation, and the sweeper that recovers from it. Each call to the key-value
    store or the provider is one step; a crash may fall between any two. */
module ModalLog {
  import opened Basics

  /** What identifies a machine: the pending key is a digest of exactly these, taken as injective. */
  datatype Name = Name(account: string, app: string, name: string)

  datatype Key = Pending(of: Name) | ById(id: nat)

  datatype Record = Record(of: Name, sandbox: Option<nat>, expiresAt: int)

  /** How far a create call has got. */
  datatype Stage = Started | Noted | Created(id: nat) | Remembered(id: nat) | Cleared

  datatype Creator = Creator(name: Name, expiresAt: int, stage: Stage)

  /** How far the sweep of one key has got. */
  datatype Sweep =
    | Reading
    | Looking(record: Record)
    | Removing
    | Remembering(record: Record, id: nat)
    | Clearing(id: nat)

  datatype Sweeper = Sweeper(key: Key, stage: Sweep)

  datatype State = State(
    kv: map<Key, Record>,
    live: map<nat, Name>,          // the provider's running machine sandboxes
    nextId: nat,                   // sandbox ids are never reused
    allocating: set<Key>,
    creators: map<nat, Creator>,
    sweepers: map<nat, Sweeper>)

  const INITIAL := State(map[], map[], 0, {}, map[], map[])

  datatype Event =
    | Begin(p: nat, name: Name, expiresAt: int)
    | Note(p: nat)
    | Make(p: nat, lost: bool)                 // lost: made, but the reply never arrives
    | Remember(p: nat)
    | Clear(p: nat)
    | Finish(p: nat)                           // return or throw: the finally block
    | Dies(id: nat)                            // a sandbox ends, by terminate or on its own
    | Forget(id: nat)                          // terminate's lookup found it gone
    | SweepBegin(q: nat, key: Key)
    | SweepRead(q: nat, account: string)
    | SweepLook(q: nat, now: int, found: Option<nat>)
    | SweepRemove(q: nat)
    | SweepRemember(q: nat)
    | SweepClear(q: nat)
    | SweepFail(q: nat)
    | Crash

  function SetCreator(s: State, p: nat, stage: Stage): State
    requires p in s.creators
  {
    s.(creators := s.creators[p := s.creators[p].(stage := stage)])
  }

  function EndCreate(s: State, p: nat): State
    requires p in s.creators
  {
    s.(creators := s.creators - {p}, allocating := s.allocating - {Pending(s.creators[p].name)})
  }

  function SetSweep(s: State, q: nat, stage: Sweep): State
    requires q in s.sweepers
  {
    s.(sweepers := s.sweepers[q := s.sweepers[q].(stage := stage)])
  }

  function EndSweep(s: State, q: nat): State {
    s.(sweepers := s.sweepers - {q})
  }

  function Step(s: State, e: Event): State {
    match e
    case Begin(p, name, expiresAt) =>
      if p in s.creators then s
      else s.(creators := s.creators[p := Creator(name, expiresAt, Started)],
              allocating := s.allocating + {Pending(name)})
    case Note(p) =>
      if p !in s.creators || !s.creators[p].stage.Started? then s
      else
        var c := s.creators[p];
        SetCreator(s.(kv := s.kv[Pending(c.name) := Record(c.name, None, c.expiresAt)]), p, Noted)
    case Make(p, lost) =>
      if p !in s.creators || !s.creators[p].stage.Noted? then s
      else
        var made := s.(live := s.live[s.nextId := s.creators[p].name], nextId := s.nextId + 1);
        if lost then EndCreate(made, p) else SetCreator(made, p, Created(s.nextId))
    case Remember(p) =>
      if p !in s.creators || !s.creators[p].stage.Created? then s
      else
        var c := s.creators[p];
        SetCreator(s.(kv := s.kv[ById(c.stage.id) := Record(c.name, Some(c.stage.id), c.expiresAt)]),
                   p, Remembered(c.stage.id))
    case Clear(p) =>
      if p !in s.creators || !s.creators[p].stage.Remembered? then s
      else SetCreator(s.(kv := s.kv - {Pending(s.creators[p].name)}), p, Cleared)
    case Finish(p) => if p !in s.creators then s else EndCreate(s, p)
    case Dies(id) => s.(live := s.live - {id})
    case Forget(id) => if id in s.live then s else s.(kv := s.kv - {ById(id)})
    case SweepBegin(q, key) =>
      if q in s.sweepers || key in s.allocating then s else s.(sweepers := s.sweepers[q := Sweeper(key, Reading)])
    case SweepRead(q, account) =>
      if q !in s.sweepers || !s.sweepers[q].stage.Reading? then s
      else if s.sweepers[q].key !in s.kv || s.kv[s.sweepers[q].key].of.account != account then EndSweep(s, q)
      else SetSweep(s, q, Looking(s.kv[s.sweepers[q].key]))
    case SweepLook(q, now, found) =>
      if q !in s.sweepers || !s.sweepers[q].stage.Looking? then s
      else
        var record := s.sweepers[q].stage.record;
        if found.None? then
          if record.sandbox.Some? || now >= record.expiresAt then SetSweep(s, q, Removing) else EndSweep(s, q)
        else if record.sandbox.None? then SetSweep(s, q, Remembering(record, found.value))
        else EndSweep(s, q)
    case SweepRemove(q) =>
      if q !in s.sweepers || !s.sweepers[q].stage.Removing? then s
      else EndSweep(s.(kv := s.kv - {s.sweepers[q].key}), q)
    case SweepRemember(q) =>
      if q !in s.sweepers || !s.sweepers[q].stage.Remembering? then s
      else
        var sweep := s.sweepers[q].stage;
        SetSweep(s.(kv := s.kv[ById(sweep.id) := sweep.record.(sandbox := Some(sweep.id))]), q, Clearing(sweep.id))
    case SweepClear(q) =>
      if q !in s.sweepers || !s.sweepers[q].stage.Clearing? then s
      else EndSweep(s.(kv := s.kv - {s.sweepers[q].key}), q)
    case SweepFail(q) => EndSweep(s, q)
    case Crash => s.(allocating := {}, creators := map[], sweepers := map[])
  }

  function Order(stage: Stage): nat {
    match stage
    case Started => 0
    case Noted => 1
    case Created(_) => 2
    case Remembered(_) => 3
    case Cleared => 4
  }

  /** A create goes through its stages one by one, and at each it does one thing: it notes, makes, remembers, clears. */
  lemma StagesInOrder(s: State, e: Event, p: nat)
    requires p in s.creators && p in Step(s, e).creators
    ensures var t := Step(s, e);
            var (before, now) := (s.creators[p].stage, t.creators[p].stage);
            && (now == before || Order(now) == Order(before) + 1)
            && (now.Noted? && now != before ==> t.kv == s.kv[Pending(s.creators[p].name) :=
                   Record(s.creators[p].name, None, s.creators[p].expiresAt)])
            && (now.Created? && now != before ==> t.kv == s.kv && t.live == s.live[now.id := s.creators[p].name])
            && (now.Remembered? && now != before ==> t.kv == s.kv[ById(before.id) :=
                   Record(s.creators[p].name, Some(before.id), s.creators[p].expiresAt)] && now.id == before.id)
            && (now.Cleared? && now != before ==> t.kv == s.kv - {Pending(s.creators[p].name)})
  {}

  function SweepOrder(stage: Sweep): nat {
    match stage
    case Reading => 0
    case Looking(_) => 1
    case Removing => 2
    case Remembering(_, _) => 2
    case Clearing(_) => 3
  }

  /** A sweep stays with its key and goes through its stages one by one. */
  lemma SweepInOrder(s: State, e: Event, q: nat)
    requires q in s.sweepers && q in Step(s, e).sweepers
    ensures var (before, now) := (s.sweepers[q], Step(s, e).sweepers[q]);
            now.key == before.key && (now == before || SweepOrder(now.stage) == SweepOrder(before.stage) + 1)
  {}

  // ---- assumptions about the environment ----

  /** An accurate lookup: by name while the record has no id, else by id. */
  ghost predicate Accurate(s: State, record: Record, found: Option<nat>) {
    match record.sandbox
    case None =>
      if found.Some? then found.value in s.live && s.live[found.value] == record.of
      else forall id | id in s.live :: s.live[id] != record.of
    case Some(id) => found == if id in s.live then Some(id) else None
  }

  ghost predicate NameFree(s: State, name: Name) {
    forall id | id in s.live :: s.live[id] != name
  }

  /** No create of this name is under way, and no sweep of its pending record: see BeginIsSafeExactly. */
  ghost predicate NameIdle(s: State, name: Name) {
    && (forall p | p in s.creators :: s.creators[p].name != name)
    && (forall q | q in s.sweepers :: s.sweepers[q].key != Pending(name))
  }

  ghost predicate Enabled(s: State, e: Event) {
    match e
    case Begin(p, name, _) => NameIdle(s, name)
    case Make(p, _) => p in s.creators ==> NameFree(s, s.creators[p].name)   // the provider refuses a name in use
    case SweepLook(q, _, found) =>
      q in s.sweepers && s.sweepers[q].stage.Looking? ==> Accurate(s, s.sweepers[q].stage.record, found)
    case _ => true
  }

  // ---- the property, and the invariant that carries it ----

  /** A live sandbox can be found again: by its id, or by a pending record with its account, app and name. */
  ghost predicate Tracked(s: State, id: nat)
    requires id in s.live
  {
    ById(id) in s.kv || Pending(s.live[id]) in s.kv
  }

  ghost predicate KvInv(s: State) {
    forall k | k in s.kv ::
      match k
      case Pending(n) => s.kv[k].of == n && s.kv[k].sandbox.None?
      case ById(id) => s.kv[k].sandbox == Some(id) && id < s.nextId
  }

  ghost predicate LiveInv(s: State) {
    && (forall id | id in s.live :: id < s.nextId && Tracked(s, id))
    && (forall a, b | a in s.live && b in s.live && a != b :: s.live[a] != s.live[b])
  }

  ghost predicate OnlyLive(s: State, name: Name, id: nat) {
    forall j | j in s.live && s.live[j] == name :: j == id
  }

  ghost predicate CreatorInv(s: State, c: Creator) {
    && Pending(c.name) in s.allocating
    && match c.stage
       case Started => true
       case Noted => Pending(c.name) in s.kv
       case Created(id) => id < s.nextId && OnlyLive(s, c.name, id)
       case Remembered(id) => id < s.nextId && OnlyLive(s, c.name, id) && (id in s.live ==> ById(id) in s.kv)
       case Cleared => true
  }

  ghost predicate SweeperInv(s: State, w: Sweeper) {
    && (w.key.Pending? ==> forall p | p in s.creators :: s.creators[p].name != w.key.of)
    && (w.key.ById? ==> w.stage.Reading? || w.key.id < s.nextId)
    && match w.stage
       case Reading => true
       case Looking(record) =>
         if w.key.Pending? then record.of == w.key.of && record.sandbox.None? else record.sandbox == Some(w.key.id)
       case Removing => if w.key.Pending? then NameFree(s, w.key.of) else w.key.id !in s.live
       case Remembering(record, id) =>
           w.key.Pending? && record.of == w.key.of && id < s.nextId && OnlyLive(s, w.key.of, id)
       case Clearing(id) =>
           w.key.Pending? && id < s.nextId && OnlyLive(s, w.key.of, id) && (id in s.live ==> ById(id) in s.kv)
  }

  ghost predicate Inv(s: State) {
    && KvInv(s) && LiveInv(s)
    && (forall p | p in s.creators :: CreatorInv(s, s.creators[p]))
    && (forall p, r | p in s.creators && r in s.creators && p != r :: s.creators[p].name != s.creators[r].name)
    && (forall q | q in s.sweepers :: SweeperInv(s, s.sweepers[q]))
  }

  lemma BeginKeepsInv(s: State, p: nat, name: Name, expiresAt: int)
    requires Inv(s) && Enabled(s, Begin(p, name, expiresAt))
    ensures Inv(Step(s, Begin(p, name, expiresAt)))
  {
    var s' := Step(s, Begin(p, name, expiresAt));
    forall r | r in s'.creators
      ensures CreatorInv(s', s'.creators[r])
    {
      if r in s.creators { BeginKeepsCreator(s, p, name, expiresAt, s.creators[r]); }
    }
    forall x | x in s'.sweepers
      ensures SweeperInv(s', s'.sweepers[x])
    {
      BeginKeepsSweeper(s, p, name, expiresAt, s.sweepers[x]);
    }
  }

  lemma BeginKeepsCreator(s: State, p: nat, name: Name, expiresAt: int, c: Creator)
    requires CreatorInv(s, c)
    ensures CreatorInv(Step(s, Begin(p, name, expiresAt)), c)
  {}

  lemma BeginKeepsSweeper(s: State, p: nat, name: Name, expiresAt: int, w: Sweeper)
    requires SweeperInv(s, w) && w.key != Pending(name)
    ensures SweeperInv(Step(s, Begin(p, name, expiresAt)), w)
  {}

  lemma NoteKeepsInv(s: State, p: nat)
    requires Inv(s) && Enabled(s, Note(p))
    ensures Inv(Step(s, Note(p)))
  {
    var s' := Step(s, Note(p));
    if s' != s {
      assert s'.live == s.live && s'.allocating == s.allocating && s'.sweepers == s.sweepers;
      forall r | r in s'.creators
        ensures CreatorInv(s', s'.creators[r]) && s'.creators[r].name == s.creators[r].name
      {
        assert CreatorInv(s, s.creators[r]);
      }
      forall q | q in s'.sweepers
        ensures SweeperInv(s', s'.sweepers[q])
      {
        assert SweeperInv(s, s.sweepers[q]);
      }
      assert forall id | id in s'.live :: Tracked(s, id) ==> Tracked(s', id);
      assert KvInv(s');
    }
  }

  /** A new sandbox under a name that was free concerns no sweep and no other create. */
  lemma MakeKeepsOthers(s: State, s': State, name: Name)
    requires s'.live == s.live[s.nextId := name] && s'.nextId == s.nextId + 1 && s'.kv == s.kv
    requires s'.creators.Keys <= s.creators.Keys && forall r | r in s'.creators ::
               s'.creators[r].name == s.creators[r].name
    ensures forall w: Sweeper | SweeperInv(s, w) && w.key != Pending(name) :: SweeperInv(s', w)
    ensures forall c: Creator | CreatorInv(s, c) && c.name != name && Pending(c.name) in s'.allocating ::
              CreatorInv(s', c)
  {}

  lemma MakeKeepsInv(s: State, p: nat, lost: bool)
    requires Inv(s) && Enabled(s, Make(p, lost))
    ensures Inv(Step(s, Make(p, lost)))
  {
    var s' := Step(s, Make(p, lost));
    if s' != s {
      var name, id := s.creators[p].name, s.nextId;
      assert CreatorInv(s, s.creators[p]);
      MakeKeepsOthers(s, s', name);
      forall j | j in s'.live
        ensures j < s'.nextId && Tracked(s', j)
        ensures (j != id ==> j in s.live && s'.live[j] == s.live[j] && s.live[j] != name)
      {
        assert j != id ==> Tracked(s, j);
      }
      forall r | r in s'.creators && r != p
        ensures CreatorInv(s', s'.creators[r])
      {
        assert CreatorInv(s, s.creators[r]);
        assert s.creators[r].name != name;
      }
      forall q | q in s'.sweepers
        ensures SweeperInv(s', s'.sweepers[q])
      {
        assert SweeperInv(s, s.sweepers[q]);
        assert s.creators[p].name == name;
      }
    }
  }

  lemma RememberKeepsInv(s: State, p: nat)
    requires Inv(s) && Enabled(s, Remember(p))
    ensures Inv(Step(s, Remember(p)))
  {
    var s' := Step(s, Remember(p));
    forall r | r in s'.creators
      ensures CreatorInv(s', s'.creators[r])
    {
      assert r in s.creators ==> CreatorInv(s, s.creators[r]);
    }
    forall x | x in s'.sweepers
      ensures SweeperInv(s', s'.sweepers[x])
    {
      assert x in s.sweepers && SweeperInv(s, s.sweepers[x]);
    }
  }

  lemma ClearKeepsInv(s: State, p: nat)
    requires Inv(s) && Enabled(s, Clear(p))
    ensures Inv(Step(s, Clear(p)))
  {
    var s' := Step(s, Clear(p));
    forall r | r in s'.creators
      ensures CreatorInv(s', s'.creators[r])
    {
      assert r in s.creators ==> CreatorInv(s, s.creators[r]);
    }
    forall x | x in s'.sweepers
      ensures SweeperInv(s', s'.sweepers[x])
    {
      assert x in s.sweepers && SweeperInv(s, s.sweepers[x]);
    }
  }

  lemma FinishKeepsInv(s: State, p: nat)
    requires Inv(s) && Enabled(s, Finish(p))
    ensures Inv(Step(s, Finish(p)))
  {
    var s' := Step(s, Finish(p));
    forall r | r in s'.creators
      ensures CreatorInv(s', s'.creators[r])
    {
      assert r in s.creators ==> CreatorInv(s, s.creators[r]);
    }
    forall x | x in s'.sweepers
      ensures SweeperInv(s', s'.sweepers[x])
    {
      assert x in s.sweepers && SweeperInv(s, s.sweepers[x]);
    }
  }

  lemma DiesKeepsInv(s: State, id: nat)
    requires Inv(s) && Enabled(s, Dies(id))
    ensures Inv(Step(s, Dies(id)))
  {
    var s' := Step(s, Dies(id));
    forall r | r in s'.creators
      ensures CreatorInv(s', s'.creators[r])
    {
      assert r in s.creators ==> CreatorInv(s, s.creators[r]);
    }
    forall x | x in s'.sweepers
      ensures SweeperInv(s', s'.sweepers[x])
    {
      assert x in s.sweepers && SweeperInv(s, s.sweepers[x]);
    }
  }

  lemma ForgetKeepsInv(s: State, id: nat)
    requires Inv(s) && Enabled(s, Forget(id))
    ensures Inv(Step(s, Forget(id)))
  {}

  lemma SweepBeginKeepsInv(s: State, q: nat, key: Key)
    requires Inv(s) && Enabled(s, SweepBegin(q, key))
    ensures Inv(Step(s, SweepBegin(q, key)))
  {}

  /** Moving one sweeper on, with the store and the provider as they were. */
  lemma SetSweepKeepsInv(s: State, q: nat, stage: Sweep)
    requires Inv(s) && q in s.sweepers && SweeperInv(s, Sweeper(s.sweepers[q].key, stage))
    ensures Inv(SetSweep(s, q, stage))
  {
    var s' := SetSweep(s, q, stage);
    forall r | r in s'.creators
      ensures CreatorInv(s', s'.creators[r])
    {
      assert CreatorInv(s, s.creators[r]);
    }
    forall x | x in s'.sweepers
      ensures SweeperInv(s', s'.sweepers[x])
    {
      assert SweeperInv(s, s.sweepers[x]);
    }
  }

  lemma LookedInv(s: State, q: nat, now: int, found: Option<nat>)
    requires Inv(s) && q in s.sweepers && s.sweepers[q].stage.Looking?
    requires Accurate(s, s.sweepers[q].stage.record, found)
    ensures found.None? ==> SweeperInv(s, Sweeper(s.sweepers[q].key, Removing))
    ensures found.Some? && s.sweepers[q].stage.record.sandbox.None? ==>
              SweeperInv(s, Sweeper(s.sweepers[q].key, Remembering(s.sweepers[q].stage.record, found.value)))
  {
    assert SweeperInv(s, s.sweepers[q]);
  }

  lemma SweepLookKeepsInv(s: State, q: nat, now: int, found: Option<nat>)
    requires Inv(s) && Enabled(s, SweepLook(q, now, found))
    ensures Inv(Step(s, SweepLook(q, now, found)))
  {
    if q in s.sweepers && s.sweepers[q].stage.Looking? {
      var record := s.sweepers[q].stage.record;
      LookedInv(s, q, now, found);
      if found.None? && (record.sandbox.Some? || now >= record.expiresAt) {
        SetSweepKeepsInv(s, q, Removing);
      } else if found.Some? && record.sandbox.None? {
        SetSweepKeepsInv(s, q, Remembering(record, found.value));
      } else {
        EndSweepKeepsInv(s, q);
      }
    }
  }

  lemma EndSweepKeepsInv(s: State, q: nat)
    requires Inv(s)
    ensures Inv(EndSweep(s, q))
  {}

  lemma SweepReadKeepsInv(s: State, q: nat, account: string)
    requires Inv(s) && Enabled(s, SweepRead(q, account))
    ensures Inv(Step(s, SweepRead(q, account)))
  {
    if q in s.sweepers && s.sweepers[q].stage.Reading? {
      var key := s.sweepers[q].key;
      if key !in s.kv || s.kv[key].of.account != account {
        EndSweepKeepsInv(s, q);
      } else {
        assert SweeperInv(s, s.sweepers[q]);
        SetSweepKeepsInv(s, q, Looking(s.kv[key]));
      }
    }
  }

  lemma SweepRemoveKeepsInv(s: State, q: nat)
    requires Inv(s) && Enabled(s, SweepRemove(q))
    ensures Inv(Step(s, SweepRemove(q)))
  {
    var s' := Step(s, SweepRemove(q));
    forall r | r in s'.creators
      ensures CreatorInv(s', s'.creators[r])
    {
      assert r in s.creators ==> CreatorInv(s, s.creators[r]);
    }
    forall x | x in s'.sweepers
      ensures SweeperInv(s', s'.sweepers[x])
    {
      assert x in s.sweepers && SweeperInv(s, s.sweepers[x]);
    }
  }

  lemma SweepRememberKeepsInv(s: State, q: nat)
    requires Inv(s) && Enabled(s, SweepRemember(q))
    ensures Inv(Step(s, SweepRemember(q)))
  {
    var s' := Step(s, SweepRemember(q));
    forall r | r in s'.creators
      ensures CreatorInv(s', s'.creators[r])
    {
      assert r in s.creators ==> CreatorInv(s, s.creators[r]);
    }
    forall x | x in s'.sweepers
      ensures SweeperInv(s', s'.sweepers[x])
    {
      assert x in s.sweepers && SweeperInv(s, s.sweepers[x]);
    }
  }

  lemma SweepClearKeepsInv(s: State, q: nat)
    requires Inv(s) && Enabled(s, SweepClear(q))
    ensures Inv(Step(s, SweepClear(q)))
  {
    var s' := Step(s, SweepClear(q));
    forall r | r in s'.creators
      ensures CreatorInv(s', s'.creators[r])
    {
      assert r in s.creators ==> CreatorInv(s, s.creators[r]);
    }
    forall x | x in s'.sweepers
      ensures SweeperInv(s', s'.sweepers[x])
    {
      assert x in s.sweepers && SweeperInv(s, s.sweepers[x]);
    }
  }

  lemma StepKeepsInv(s: State, e: Event)
    requires Inv(s) && Enabled(s, e)
    ensures Inv(Step(s, e))
  {
    match e {
      case Begin(p, name, expiresAt) => BeginKeepsInv(s, p, name, expiresAt);
      case Note(p) => NoteKeepsInv(s, p);
      case Make(p, lost) => MakeKeepsInv(s, p, lost);
      case Remember(p) => RememberKeepsInv(s, p);
      case Clear(p) => ClearKeepsInv(s, p);
      case Finish(p) => FinishKeepsInv(s, p);
      case Dies(id) => DiesKeepsInv(s, id);
      case Forget(id) => ForgetKeepsInv(s, id);
      case SweepBegin(q, key) => SweepBeginKeepsInv(s, q, key);
      case SweepRead(q, account) => SweepReadKeepsInv(s, q, account);
      case SweepLook(q, now, found) => SweepLookKeepsInv(s, q, now, found);
      case SweepRemove(q) => SweepRemoveKeepsInv(s, q);
      case SweepRemember(q) => SweepRememberKeepsInv(s, q);
      case SweepClear(q) => SweepClearKeepsInv(s, q);
      case SweepFail(q) => EndSweepKeepsInv(s, q);
      case Crash =>
    }
  }

  // ---- every run ----

  ghost predicate RunOf(s: State, events: seq<Event>)
    decreases |events|
  {
    events == [] || (Enabled(s, events[0]) && RunOf(Step(s, events[0]), events[1..]))
  }

  function After(s: State, events: seq<Event>): State
    decreases |events|
  {
    if events == [] then s else After(Step(s, events[0]), events[1..])
  }

  lemma {:induction false} RunKeepsInv(s: State, events: seq<Event>)
    requires Inv(s) && RunOf(s, events)
    ensures Inv(After(s, events))
    decreases |events|
  {
    if events == [] {
    } else {
      StepKeepsInv(s, events[0]);
      RunKeepsInv(Step(s, events[0]), events[1..]);
    }
  }

  ghost predicate NoneOrphaned(s: State) {
    forall id | id in s.live :: Tracked(s, id)
  }

  /** No orphan: in every reachable state, crashes included, each live sandbox has a record that leads to it. */
  lemma NoOrphan(events: seq<Event>)
    requires RunOf(INITIAL, events)
    ensures NoneOrphaned(After(INITIAL, events))
  {
    RunKeepsInv(INITIAL, events);
  }

  // ---- when may a create begin? ----

  /** In every state that can be reached: no later run orphans a sandbox if and only if no create of the same name and
      no sweep of its pending record is under way, at whatever stage they are. */
  lemma BeginIsSafeExactly(s: State, p: nat, n: Name, expiresAt: int)
    requires Inv(s) && p !in s.creators
    ensures var begun := Step(s, Begin(p, n, expiresAt));
            (forall events | RunOf(begun, events) :: NoneOrphaned(After(begun, events))) <==> NameIdle(s, n)
  {
    var begun := Step(s, Begin(p, n, expiresAt));
    if NameIdle(s, n) {
      BeginKeepsInv(s, p, n, expiresAt);
      forall events | RunOf(begun, events)
        ensures NoneOrphaned(After(begun, events))
      {
        RunKeepsInv(begun, events);
      }
    } else if r :| r in s.creators && s.creators[r].name == n {
      var events := OrphanBesideCreate(s, p, n, expiresAt, r);
      assert !NoneOrphaned(After(begun, events));
    } else {
      var q :| q in s.sweepers && s.sweepers[q].key == Pending(n);
      var events := OrphanBesideSweep(s, p, n, expiresAt, q);
      assert !NoneOrphaned(After(begun, events));
    }
  }

  lemma Single(s: State, e: Event) returns (events: seq<Event>)
    requires Enabled(s, e)
    ensures RunOf(s, events) && After(s, events) == Step(s, e)
  {
    events := [e];
    assert events[1..] == [];
  }

  lemma {:induction false} JoinRun(s: State, a: seq<Event>, b: seq<Event>)
    requires RunOf(s, a) && RunOf(After(s, a), b)
    ensures RunOf(s, a + b) && After(s, a + b) == After(After(s, a), b)
    decreases |a|
  {
    if a == [] {
      assert a + b == b;
    } else {
      assert (a + b)[1..] == a[1..] + b;
      JoinRun(Step(s, a[0]), a[1..], b);
    }
  }

  lemma Then(s: State, a: seq<Event>, e: Event) returns (events: seq<Event>)
    requires RunOf(s, a) && Enabled(After(s, a), e)
    ensures RunOf(s, events) && After(s, events) == Step(After(s, a), e)
  {
    var last := Single(After(s, a), e);
    JoinRun(s, a, last);
    events := a + last;
  }

  /** The create has noted its pending record, its name is free, and nothing is stored for the next sandbox. */
  ghost predicate AboutToMake(s: State, p: nat, n: Name) {
    p in s.creators && s.creators[p].name == n && s.creators[p].stage.Noted? && NameFree(s, n) &&
        ById(s.nextId) !in s.kv
  }

  /** The sandbox of a name is gone and a create of it has noted its record. */
  lemma FreeAndNote(s: State, p: nat, n: Name) returns (events: seq<Event>)
    requires p in s.creators && s.creators[p].name == n && s.creators[p].stage.Started?
    requires KvInv(s) && forall a, b | a in s.live && b in s.live && a != b :: s.live[a] != s.live[b]
    ensures RunOf(s, events)
    ensures var t := After(s, events);
            && AboutToMake(t, p, n) && t.kv == s.kv[Pending(n) := Record(n, None, s.creators[p].expiresAt)]
            && t.sweepers == s.sweepers && t.allocating == s.allocating && t.nextId == s.nextId
  {
    var d := s.nextId;
    if id :| id in s.live && s.live[id] == n { d := id; }
    events := Single(s, Dies(d));
    assert NameFree(Step(s, Dies(d)), n);
    events := Then(s, events, Note(p));
  }

  /** A sweep that is about to remove the pending record does so after the sandbox has been made. */
  lemma RemovedUnderCreate(s: State, p: nat, n: Name, q: nat) returns (events: seq<Event>)
    requires AboutToMake(s, p, n) && q in s.sweepers && s.sweepers[q].key == Pending(n)
    requires s.sweepers[q].stage.Removing? || s.sweepers[q].stage.Clearing?
    ensures RunOf(s, events) && !NoneOrphaned(After(s, events))
  {
    events := Single(s, Make(p, false));
    events := Then(s, events, if s.sweepers[q].stage.Removing? then SweepRemove(q) else SweepClear(q));
    assert s.nextId in After(s, events).live && !Tracked(After(s, events), s.nextId);
  }

  /** Any other stage of the sweep can still get there. */
  lemma DriveSweep(s: State, p: nat, n: Name, q: nat) returns (events: seq<Event>)
    requires AboutToMake(s, p, n) && q in s.sweepers && s.sweepers[q].key == Pending(n)
    requires Pending(n) in s.kv && s.kv[Pending(n)].of == n && s.kv[Pending(n)].sandbox.None?
    requires s.sweepers[q].stage.Looking? ==>
               s.sweepers[q].stage.record.of == n && s.sweepers[q].stage.record.sandbox.None?
    requires s.sweepers[q].stage.Remembering? ==> s.sweepers[q].stage.id < s.nextId
    ensures RunOf(s, events) && !NoneOrphaned(After(s, events))
  {
    events := [];
    var stage := s.sweepers[q].stage;
    if stage.Reading? {
      events := Single(s, SweepRead(q, n.account));
      events := Then(s, events, SweepLook(q, s.kv[Pending(n)].expiresAt, None));
    } else if stage.Looking? {
      events := Single(s, SweepLook(q, stage.record.expiresAt, None));
    } else if stage.Remembering? {
      events := Single(s, SweepRemember(q));
    }
    var t := After(s, events);
    var rest := RemovedUnderCreate(t, p, n, q);
    JoinRun(s, events, rest);
    events := events + rest;
  }

  /** The other create ends first and takes the protection of the pending record with it; a sweep that comes after the
      record has expired then removes it under the create that is still waiting for its sandbox. */
  lemma OrphanBesideCreate(s: State, p: nat, n: Name, expiresAt: int, r: nat) returns (events: seq<Event>)
    requires Inv(s) && p !in s.creators && r in s.creators && s.creators[r].name == n
    ensures var begun := Step(s, Begin(p, n, expiresAt)); RunOf(begun, events) && !NoneOrphaned(After(begun, events))
  {
    var begun := Step(s, Begin(p, n, expiresAt));
    events := Single(begun, Finish(r));
    var alone := After(begun, events);
    var noted := FreeAndNote(alone, p, n);
    JoinRun(begun, events, noted);
    events := events + noted;
    var q := Unused(alone.sweepers.Keys);
    events := Then(begun, events, SweepBegin(q, Pending(n)));
    var rest := DriveSweep(After(begun, events), p, n, q);
    JoinRun(begun, events, rest);
    events := events + rest;
  }

  lemma OrphanBesideSweep(s: State, p: nat, n: Name, expiresAt: int, q: nat) returns (events: seq<Event>)
    requires Inv(s) && p !in s.creators && q in s.sweepers && s.sweepers[q].key == Pending(n)
    ensures var begun := Step(s, Begin(p, n, expiresAt)); RunOf(begun, events) && !NoneOrphaned(After(begun, events))
  {
    var begun := Step(s, Begin(p, n, expiresAt));
    assert SweeperInv(s, s.sweepers[q]);
    events := FreeAndNote(begun, p, n);
    var rest := DriveSweep(After(begun, events), p, n, q);
    JoinRun(begun, events, rest);
    events := events + rest;
  }

  lemma Unused(taken: set<nat>) returns (q: nat)
    ensures q !in taken
  {
    q := 0;
    var left := taken;
    while q in left
      invariant forall x | x in taken :: x in left || x < q
      decreases left
    {
      left := left - {q};
      q := q + 1;
    }
    assert q in taken ==> q in left;
  }

  /** A create that is under way when the process dies leaves its sandbox to the sweeper: once a sweep of the pending
      record has looked and finished, the sandbox has a record under its own id. */
  lemma SweepRecovers(s: State, q: nat, n: Name, now: int, id: nat)
    requires Inv(s) && q !in s.sweepers && Pending(n) in s.kv && Pending(n) !in s.allocating
    requires id in s.live && s.live[id] == n
    ensures var swept := After(s, SweepOf(q, n, now, id));
            && swept.kv == s.kv[ById(id) := s.kv[Pending(n)].(sandbox := Some(id))] - {Pending(n)}
            && swept.live == s.live && swept.sweepers == s.sweepers
  {
    SweepRuns(s, q, n, now, id);
  }

  function SweepOf(q: nat, n: Name, now: int, id: nat): seq<Event> {
    [SweepBegin(q, Pending(n))] +
    ([SweepRead(q, n.account)] + ([SweepLook(q, now, Some(id))] + ([SweepRemember(q)] + ([SweepClear(q)] + []))))
  }

  lemma SweepRuns(s: State, q: nat, n: Name, now: int, id: nat)
    requires q !in s.sweepers && Pending(n) in s.kv && Pending(n) !in s.allocating
    requires s.kv[Pending(n)].of == n && s.kv[Pending(n)].sandbox.None?
    ensures var swept := After(s, SweepOf(q, n, now, id));
            && swept.kv == s.kv[ById(id) := s.kv[Pending(n)].(sandbox := Some(id))] - {Pending(n)}
            && swept.live == s.live && swept.sweepers == s.sweepers
  {
    var s1 := s.(sweepers := s.sweepers[q := Sweeper(Pending(n), Reading)]);
    var s2 := s.(sweepers := s.sweepers[q := Sweeper(Pending(n), Looking(s.kv[Pending(n)]))]);
    assert s1.sweepers[q := Sweeper(Pending(n), Looking(s.kv[Pending(n)]))] == s2.sweepers;
    assert Step(s1, SweepRead(q, n.account)) == s2;
    SweepEnds(s2, q, n, now, id);
    var end := After(s2, SweepOf(q, n, now, id)[2..]);
    assert SweepOf(q, n, now, id)[1..][1..] == SweepOf(q, n, now, id)[2..];
    assert After(s1, SweepOf(q, n, now, id)[1..]) == end;
    assert After(s, SweepOf(q, n, now, id)) == end;
    assert s2.sweepers - {q} == s.sweepers;
  }

  lemma SweepEnds(s: State, q: nat, n: Name, now: int, id: nat)
    requires q in s.sweepers && s.sweepers[q].key == Pending(n) && s.sweepers[q].stage.Looking?
    requires s.sweepers[q].stage.record.sandbox.None?
    ensures var swept := After(s, SweepOf(q, n, now, id)[2..]);
            && swept.kv == s.kv[ById(id) := s.sweepers[q].stage.record.(sandbox := Some(id))] - {Pending(n)}
            && swept.live == s.live && swept.sweepers == s.sweepers - {q}
  {
    var events := SweepOf(q, n, now, id)[2..];
    var s3 := Step(s, SweepLook(q, now, Some(id)));
    var s4 := Step(s3, SweepRemember(q));
    var s5 := Step(s4, SweepClear(q));
    assert events == [SweepLook(q, now, Some(id)), SweepRemember(q), SweepClear(q)];
    assert events[1..] == [SweepRemember(q), SweepClear(q)] && events[1..][1..] == [SweepClear(q)];
    assert After(s5, []) == s5;
    assert [SweepClear(q)][1..] == [];
    assert After(s4, [SweepClear(q)]) == s5;
    assert After(s3, events[1..]) == s5;
    assert s5.sweepers == s.sweepers - {q};
  }

  /** Runs in which lookups are accurate and names are unique, but a create may start at any moment. */
  ghost predicate NamesMayRace(s: State, events: seq<Event>)
    decreases |events|
  {
    events == [] || ((events[0].Begin? || Enabled(s, events[0])) && NamesMayRace(Step(s, events[0]), events[1..]))
  }

  lemma AfterCons(s: State, e: Event, next: State, rest: seq<Event>, end: State) returns (events: seq<Event>)
    requires (e.Begin? || Enabled(s, e)) && Step(s, e) == next && NamesMayRace(next, rest) && After(next, rest) == end
    ensures events == [e] + rest && NamesMayRace(s, events) && After(s, events) == end
  {
    events := [e] + rest;
    assert events[1..] == rest;
  }

  /** Two creates of one name, and no sweep at all: the first one clears the pending record of the second. */
  lemma OverlappingCreatesOrphan(n: Name)
    ensures var events := [Begin(0, n, 0), Note(0), Make(0, false), Remember(0), Begin(1, n, 0), Note(1),
                           Clear(0), Dies(0), Make(1, false), Crash];
            var s := After(INITIAL, events);
            NamesMayRace(INITIAL, events) && s.live == map[1 := n] && !Tracked(s, 1) && s.creators == map[]
  {
    var first := INITIAL.(kv := map[Pending(n) := Record(n, None, 0), ById(0) := Record(n, Some(0), 0)],
                          live := map[0 := n], nextId := 1, allocating := {Pending(n)},
                          creators := map[0 := Creator(n, 0, Remembered(0))]);
    var both := first.(creators := first.creators[1 := Creator(n, 0, Noted)]);
    var end := State(map[ById(0) := Record(n, Some(0), 0)], map[1 := n], 2, {}, map[], map[]);
    var e2 := SecondLosesRecord(n, both, end);
    var e1 := SecondBegins(n, first, both, e2, end);
    var e0 := FirstRemembers(n, first, e1, end);
    assert e0 == [Begin(0, n, 0), Note(0), Make(0, false), Remember(0), Begin(1, n, 0), Note(1), Clear(0), Dies(0),
                  Make(1, false), Crash];
  }

  lemma FirstRemembers(n: Name, first: State, rest: seq<Event>, end: State) returns (events: seq<Event>)
    requires first == INITIAL.(kv := map[Pending(n) := Record(n, None, 0), ById(0) := Record(n, Some(0), 0)],
               live := map[0 := n],
                               nextId := 1, allocating := {Pending(n)},
                               creators := map[0 := Creator(n, 0, Remembered(0))])
    requires NamesMayRace(first, rest) && After(first, rest) == end
    ensures events == [Begin(0, n, 0), Note(0), Make(0, false), Remember(0)] + rest
    ensures NamesMayRace(INITIAL, events) && After(INITIAL, events) == end
  {
    var begun := INITIAL.(allocating := {Pending(n)}, creators := map[0 := Creator(n, 0, Started)]);
    var noted := begun.(kv := map[Pending(n) := Record(n, None, 0)], creators := map[0 := Creator(n, 0, Noted)]);
    var made := noted.(live := map[0 := n], nextId := 1, creators := map[0 := Creator(n, 0, Created(0))]);
    assert noted.kv[ById(0) := Record(n, Some(0), 0)] == first.kv;
    var e3 := AfterCons(made, Remember(0), first, rest, end);
    var e2 := AfterCons(noted, Make(0, false), made, e3, end);
    var e1 := AfterCons(begun, Note(0), noted, e2, end);
    events := AfterCons(INITIAL, Begin(0, n, 0), begun, e1, end);
  }

  lemma SecondBegins(n: Name, first: State, both: State, rest: seq<Event>, end: State) returns (events: seq<Event>)
    requires first.kv.Keys == {Pending(n), ById(0)} && first.kv[Pending(n)] == Record(n, None, 0)
    requires first.allocating == {Pending(n)} && 1 !in first.creators
    requires both == first.(creators := first.creators[1 := Creator(n, 0, Noted)])
    requires NamesMayRace(both, rest) && After(both, rest) == end
    ensures events == [Begin(1, n, 0), Note(1)] + rest && NamesMayRace(first, events) && After(first, events) == end
  {
    var begun := first.(creators := first.creators[1 := Creator(n, 0, Started)]);
    assert begun.kv[Pending(n) := Record(n, None, 0)] == begun.kv;
    assert begun.creators[1 := Creator(n, 0, Noted)] == both.creators;
    assert first.allocating + {Pending(n)} == first.allocating;
    var e1 := AfterCons(begun, Note(1), both, rest, end);
    events := AfterCons(first, Begin(1, n, 0), begun, e1, end);
  }

  lemma SecondLosesRecord(n: Name, both: State, end: State) returns (events: seq<Event>)
    requires both == State(map[Pending(n) := Record(n, None, 0), ById(0) := Record(n, Some(0), 0)], map[0 := n], 1,
               {Pending(n)},
                           map[0 := Creator(n, 0, Remembered(0)), 1 := Creator(n, 0, Noted)], map[])
    requires end == State(map[ById(0) := Record(n, Some(0), 0)], map[1 := n], 2, {}, map[], map[])
    ensures events == [Clear(0), Dies(0), Make(1, false), Crash] && NamesMayRace(both, events)
    ensures After(both, events) == end
  {
    var died := both.(kv := end.kv, live := map[],
        creators := map[0 := Creator(n, 0, Cleared), 1 := Creator(n, 0, Noted)]);
    var cleared := died.(live := both.live);
    var e2 := MadeWithoutRecord(n, died, end);
    assert both.kv - {Pending(n)} == end.kv;
    assert both.creators[0 := Creator(n, 0, Cleared)] == cleared.creators;
    assert cleared.live - {0} == map[];
    var e1 := AfterCons(cleared, Dies(0), died, e2, end);
    events := AfterCons(both, Clear(0), cleared, e1, end);
  }

  lemma MadeWithoutRecord(n: Name, died: State, end: State) returns (events: seq<Event>)
    requires died == State(end.kv, map[], 1, {Pending(n)}, map[0 := Creator(n, 0, Cleared), 1 := Creator(n, 0, Noted)],
               map[])
    requires end == State(map[ById(0) := Record(n, Some(0), 0)], map[1 := n], 2, {}, map[], map[])
    ensures events == [Make(1, false), Crash] && NamesMayRace(died, events) && After(died, events) == end
  {
    var made := Step(died, Make(1, false));
    assert made.live == map[1 := n] && made.nextId == 2 && made.kv == end.kv;
    var e1 := AfterCons(made, Crash, end, [], end);
    events := AfterCons(died, Make(1, false), made, e1, end);
  }

  /** Without the assumption on names: a create that starts while the sweep of its old pending record is about to
      remove it loses its own record, and a crash then orphans the sandbox. */
  lemma SweepRacingCreateOrphans(n: Name)
    ensures exists events, id ::
              var s := After(INITIAL, events);
              NamesMayRace(INITIAL, events) && id in s.live && !Tracked(s, id) && s.creators == map[]
  {
    var record := Record(n, None, 0);
    var stale := INITIAL.(kv := map[Pending(n) := record]);
    var removing := stale.(sweepers := map[0 := Sweeper(Pending(n), Removing)]);
    var orphan := INITIAL.(live := map[0 := n], nextId := 1);
    var e3 := CreateUnderRemoval(n, removing, orphan);
    var e2 := SweepToRemoving(n, stale, removing, e3, orphan);
    var e0 := LeavePendingRecord(n, stale, e2, orphan);
    assert 0 in orphan.live && !Tracked(orphan, 0);
    assert After(INITIAL, e0) == orphan;
  }

  lemma CreateUnderRemoval(n: Name, removing: State, orphan: State) returns (events: seq<Event>)
    requires removing == INITIAL.(kv := map[Pending(n) := Record(n, None, 0)],
               sweepers := map[0 := Sweeper(Pending(n), Removing)])
    requires orphan == INITIAL.(live := map[0 := n], nextId := 1)
    ensures NamesMayRace(removing, events) && After(removing, events) == orphan
  {
    var started := removing.(allocating := {Pending(n)}, creators := map[1 := Creator(n, 0, Started)]);
    var noted := started.(creators := map[1 := Creator(n, 0, Noted)]);
    var made := noted.(live := map[0 := n], nextId := 1, creators := map[1 := Creator(n, 0, Created(0))]);
    var lost := made.(kv := map[], sweepers := map[]);
    var e4 := AfterCons(lost, Crash, orphan, [], orphan);
    assert made.kv - {Pending(n)} == map[] && made.sweepers - {0} == map[];
    var e3 := AfterCons(made, SweepRemove(0), lost, e4, orphan);
    var e2 := AfterCons(noted, Make(1, false), made, e3, orphan);
    assert started.kv[Pending(n) := Record(n, None, 0)] == noted.kv;
    var e1 := AfterCons(started, Note(1), noted, e2, orphan);
    events := AfterCons(removing, Begin(1, n, 0), started, e1, orphan);
  }

  lemma SweepToRemoving(n: Name, s: State, removing: State, rest: seq<Event>, end: State) returns (events: seq<Event>)
    requires s.kv == map[Pending(n) := Record(n, None, 0)] && s.sweepers == map[] && s.allocating == {}
    requires s.live == map[]
    requires removing == s.(sweepers := map[0 := Sweeper(Pending(n), Removing)]) && NamesMayRace(removing, rest)
    requires After(removing, rest) == end
    ensures NamesMayRace(s, events) && After(s, events) == end
  {
    var reading := s.(sweepers := map[0 := Sweeper(Pending(n), Reading)]);
    var looking := s.(sweepers := map[0 := Sweeper(Pending(n), Looking(Record(n, None, 0)))]);
    var e2 := AfterCons(looking, SweepLook(0, 0, None), removing, rest, end);
    var e1 := AfterCons(reading, SweepRead(0, n.account), looking, e2, end);
    events := AfterCons(s, SweepBegin(0, Pending(n)), reading, e1, end);
  }

  lemma LeavePendingRecord(n: Name, s: State, rest: seq<Event>, end: State) returns (events: seq<Event>)
    requires s == INITIAL.(kv := map[Pending(n) := Record(n, None, 0)]) && NamesMayRace(s, rest)
    requires After(s, rest) == end
    ensures NamesMayRace(INITIAL, events) && After(INITIAL, events) == end
  {
    var started := INITIAL.(allocating := {Pending(n)}, creators := map[0 := Creator(n, 0, Started)]);
    var noted := started.(kv := s.kv, creators := map[0 := Creator(n, 0, Noted)]);
    var e2 := AfterCons(noted, Crash, s, rest, end);
    var e1 := AfterCons(started, Note(0), noted, e2, end);
    events := AfterCons(INITIAL, Begin(0, n, 0), started, e1, end);
  }
}
