/** The live preview: targets, the serialized re-selection chain, frame cursors and waiters. Every event of the
    source's closures, and every continuation after an await, is one step. */
module Preview {
  import opened Basics

  type TargetId = string

  datatype Target = Target(url: string, title: string, activity: nat)

  type Targets = map<TargetId, Target>

  /** conn is the connection the session belongs to; the source does not record it, nor does any step look at it. */
  datatype Cast = Cast(target: TargetId, session: string, edge: nat, conn: nat)

  datatype Frame = Frame(sequence: nat, data: string, url: string, title: string)

  /** Where the running selection task awaits, and what it carries over the await. */
  datatype Stage =
    | Stopping(target: TargetId, session: string, edge: nat)
    | Detaching(next: Option<TargetId>, edge: nat)
    | Attaching(target: TargetId, edge: nat)
    | Starting

  datatype Reply = Waiting | Resolved(session: string) | Rejected

  datatype Task = Task(conn: nat, stage: Stage, reply: Reply)

  datatype State = State(
    targets: Targets,
    socket: Option<nat>,      // the current connection
    connections: nat,         // connections opened so far
    cast: Option<Cast>,
    latest: Option<Frame>,
    sequence: nat,
    clock: nat,               // activityClock
    running: Option<Task>,
    queue: seq<nat>,          // selection tasks chained behind the running one, by connection
    waiters: map<nat, nat>,   // waiting calls and their cursors
    closed: bool)

  const INITIAL := State(map[], None, 0, None, None, 0, 0, None, [], map[], false)

  const MAX_FRAME_CHARS := 700_000

  // ---- the best target ----

  function Rank(t: Target): nat {
    if t.url == "" || t.url == "about:blank" then 0 else 1
  }

  predicate Beats(a: Target, b: Target) {
    Rank(a) > Rank(b) || (Rank(a) == Rank(b) && a.activity > b.activity)
  }

  ghost predicate DistinctActivities(targets: Targets) {
    forall a, b | a in targets && b in targets && a != b :: targets[a].activity != targets[b].activity
  }

  /** best beats every other target; None only when there is none. */
  ghost predicate IsBest(targets: Targets, best: Option<TargetId>) {
    match best
    case None => targets == map[]
    case Some(id) =>
        id in targets && forall other | other in targets && other != id :: Beats(targets[id], targets[other])
  }

  lemma BestIsUnique(targets: Targets, a: Option<TargetId>, b: Option<TargetId>)
    requires IsBest(targets, a) && IsBest(targets, b)
    ensures a == b
  {
    assert forall x: Target, y: Target :: Beats(x, y) ==> !Beats(y, x);
  }

  /** The loop of bestTarget, whatever order the map is walked in. */
  method BestTarget(targets: Targets) returns (best: Option<TargetId>)
    requires DistinctActivities(targets)
    ensures IsBest(targets, best)
  {
    best := None;
    var todo := targets.Keys;
    while todo != {}
      invariant todo <= targets.Keys
      invariant best.None? ==> todo == targets.Keys
      invariant best.Some? ==>
          best.value in targets && best.value !in todo &&
          forall other | other in targets && other !in todo && other != best.value ::
              Beats(targets[best.value], targets[other])
      decreases todo
    {
      var id :| id in todo;
      todo := todo - {id};
      if best.None? || Beats(targets[id], targets[best.value]) {
        best := Some(id);
      }
    }
  }

  // ---- steps ----

  datatype Event =
    | Observed(id: TargetId, isPage: bool, url: string, title: string)
    | Destroyed(id: TargetId)
    | Detached(session: string)
    | FrameShown(session: string, data: string)
    | Replied(reply: Reply)                                             // the running task's call is answered
    | Begin(best: Option<TargetId>, edge: nat, open: bool)              // the next chained task starts
    | Continue(open: bool)                                              // the running task resumes after its await
    | Dropped                                                           // closed, failed, malformed message, or idle
    | NextCall(caller: nat, after: nat, connects: bool)
    | Gone(caller: nat)                                                     // a waiter times out or is cancelled
    | Connect
    | Close

  function CastTarget(s: State): Option<TargetId> {
    if s.cast.Some? then Some(s.cast.value.target) else None
  }

  /** The reply a send starts with: it is rejected at once unless its connection is current and open. */
  function Sent(s: State, conn: nat, open: bool): Reply {
    if s.socket == Some(conn) && open then Waiting else Rejected
  }

  function Enqueue(s: State): State {
    if s.socket.Some? then s.(queue := s.queue + [s.socket.value]) else s
  }

  /** disconnect(): forgets the connection, its targets and the cast, and rejects the calls still waiting. */
  function Disconnect(s: State): State {
    s.(socket := None, cast := None, targets := map[],
       running := if s.running.Some? && s.running.value.reply.Waiting? then Some(s.running.value.(reply := Rejected))
           else s.running)
  }

  predicate Ready(latest: Option<Frame>, sequence: nat, after: nat) {
    latest.Some? && (latest.value.sequence > after || after > sequence)
  }

  /** Answers the waiters that have something to see. */
  function Notify(s: State): State {
    s.(waiters := map id | id in s.waiters && !Ready(s.latest, s.sequence, s.waiters[id]) :: s.waiters[id])
  }

  /** A page is new, or has another address, exactly when it becomes the most recently active one. */
  function Note(s: State, id: TargetId, url: string, title: string): State {
    var same := id in s.targets && s.targets[id].url == url;
    var clock := if same then s.clock else s.clock + 1;
    s.(targets := s.targets[id := Target(url, title, if same then s.targets[id].activity else clock)], clock := clock)
  }

  /** The frame on show takes over the new address and title of its page. */
  function Refresh(s: State, id: TargetId, url: string, title: string): State {
    if s.latest.None? || CastTarget(s) != Some(id) then s
    else
      Notify(s.(sequence := s.sequence + 1,
                latest := Some(s.latest.value.(sequence := s.sequence + 1, url := Prefix(url, 2000),
                    title := Prefix(title, 300)))))
  }

  function Observe(s: State, id: TargetId, isPage: bool, url: string, title: string): State {
    if !isPage || (id in s.targets && s.targets[id].url == url && s.targets[id].title == title) then s
    else Enqueue(Refresh(Note(s, id, url, title), id, url, title))
  }

  function Prefix(s: string, n: nat): string {
    if |s| <= n then s else s[..n]
  }

  function Show(s: State, session: string, data: string): State {
    if s.cast.None? || s.cast.value.session != session || |data| > MAX_FRAME_CHARS then s
    else
      var id := s.cast.value.target;
      var url := if id in s.targets then s.targets[id].url else "";
      var title := if id in s.targets then s.targets[id].title else "";
      Notify(s.(sequence := s.sequence + 1, latest := Some(Frame(s.sequence + 1, data, Prefix(url, 2000),
          Prefix(title, 300)))))
  }

  /** A chained task starts: compare the best target with the cast, and send the first call needed. */
  function BeginTask(s: State, best: Option<TargetId>, edge: nat, open: bool): State {
    if s.queue == [] || s.running.Some? then s
    else
      var conn := s.queue[0];
      var popped := s.(queue := s.queue[1..]);
      if s.socket != Some(conn) then popped
      else if best == CastTarget(s) && (s.cast.None? || s.cast.value.edge == edge) then popped
      else if s.cast.Some? && Some(s.cast.value.target) == best then
        popped.(running := Some(Task(conn, Stopping(s.cast.value.target, s.cast.value.session, edge),
            Sent(s, conn, open))))
      else if s.cast.Some? then
        popped.(cast := None, running := Some(Task(conn, Detaching(best, edge), Sent(s, conn, open))))
      else if best.None? then popped
      else popped.(running := Some(Task(conn, Attaching(best.value, edge), Sent(s, conn, open))))
  }

  /** The running task resumes once its call is settled; a failure other than of the detach drops the connection. */
  function ContinueTask(s: State, open: bool): State {
    if s.running.None? || s.running.value.reply.Waiting? then s
    else
      var task := s.running.value;
      if task.reply.Rejected? && !task.stage.Detaching? then
        if s.socket == Some(task.conn) then Disconnect(s.(running := None)) else s.(running := None)
      else
        match task.stage
        case Stopping(target, session, edge) =>
          s.(cast := Some(Cast(target, session, edge, task.conn)),
              running := Some(Task(task.conn, Starting, Sent(s, task.conn, open))))
        case Detaching(next, edge) =>
          if next.None? then s.(running := None)
          else s.(running := Some(Task(task.conn, Attaching(next.value, edge), Sent(s, task.conn, open))))
        case Attaching(target, edge) =>
          if task.reply.Resolved?
          then s.(cast := Some(Cast(target, task.reply.session, edge, task.conn)),
              running := Some(Task(task.conn, Starting, Sent(s, task.conn, open))))
          else s
        case Starting => s.(running := None)
  }

  function ConnectNow(s: State): State {
    if s.closed || s.socket.Some? then s
    else s.(socket := Some(s.connections), connections := s.connections + 1)
  }

  /** next(): connect if due, re-select, and register a waiter unless a frame is ready. */
  function CallNext(s: State, id: nat, after: nat, connects: bool): State {
    if s.closed then s
    else
      var selected := Enqueue(if connects then ConnectNow(s) else s);
      if Ready(selected.latest, selected.sequence, after) then selected
      else selected.(waiters := selected.waiters[id := after])
  }

  function Step(s: State, e: Event): State {
    match e
    case Observed(id, isPage, url, title) => if s.socket.Some? then Observe(s, id, isPage, url, title) else s
    case Destroyed(id) =>
      if s.socket.None? then s
      else Enqueue(s.(targets := s.targets - {id}, cast := if CastTarget(s) == Some(id) then None else s.cast))
    case Detached(session) =>
      if s.socket.None? || s.cast.None? || s.cast.value.session != session then s else Enqueue(s.(cast := None))
    case FrameShown(session, data) => if s.socket.None? then s else Show(s, session, data)
    case Replied(reply) =>
      if s.running.Some? && s.running.value.reply.Waiting? then s.(running := Some(s.running.value.(reply := reply)))
          else s
    case Begin(best, edge, open) => BeginTask(s, best, edge, open)
    case Continue(open) => ContinueTask(s, open)
    case Dropped => Disconnect(s)
    case NextCall(id, after, connects) => CallNext(s, id, after, connects)
    case Gone(id) => s.(waiters := s.waiters - {id})
    case Connect => ConnectNow(s)
    case Close => if s.closed then s else Disconnect(s.(closed := true)).(waiters := map[])
  }

  // ---- which events can happen ----

  /** A settled attach or stop of the current connection that has not resumed yet. */
  predicate Resuming(s: State) {
    s.running.Some? && s.socket == Some(s.running.value.conn) && s.running.value.reply.Resolved? &&
    (s.running.value.stage.Attaching? || s.running.value.stage.Stopping?)
  }

  /** The best target is the one the loop computes; and a settled attach or stop resumes before its connection drops.
      DropIsSafeExactly says why the second is assumed. Closing is allowed at any moment. */
  ghost predicate Enabled(s: State, e: Event) {
    match e
    case Begin(best, _, _) => IsBest(s.targets, best)
    case Dropped => !Resuming(s)
    case _ => true
  }

  ghost predicate RunOf(s: State, events: seq<Event>)
    decreases |events|
  {
    events == [] || (Enabled(s, events[0]) && RunOf(Step(s, events[0]), events[1..]))
  }

  function After(s: State, events: seq<Event>): State
    decreases |events|
  {
    if events == [] then s else After(Step(s, events[0]), events[1..])
  }

  // ---- invariants ----

  /** The task running for the current connection is on its way to casting the best target. */
  ghost predicate OnCourse(s: State) {
    if s.running.Some? && s.socket == Some(s.running.value.conn) then
      match s.running.value.stage
      case Stopping(target, _, _) => IsBest(s.targets, Some(target))
      case Detaching(next, _) => IsBest(s.targets, next) && s.cast.None?
      case Attaching(target, _) => IsBest(s.targets, Some(target)) && s.cast.None?
      case Starting => IsBest(s.targets, CastTarget(s))
    else IsBest(s.targets, CastTarget(s))
  }

  /** A session cast belongs to the current connection. */
  predicate CastIsLive(s: State) {
    s.cast.Some? ==> s.socket == Some(s.cast.value.conn)
  }

  /** What holds until the preview is closed. */
  ghost predicate SelectionInv(s: State) {
    s.closed || OpenInv(s)
  }

  ghost predicate OpenInv(s: State) {
    && (s.socket.Some? ==> s.socket.value in s.queue || OnCourse(s))
    && (s.socket.None? ==> s.cast.None? && s.targets == map[])
    && CastIsLive(s)
    && (s.running.Some? && s.socket != Some(s.running.value.conn) ==>
          s.running.value.reply.Rejected? || s.running.value.stage.Detaching? || s.running.value.stage.Starting?)
    && (s.running.Some? ==> s.running.value.conn < s.connections)
    && (s.socket.Some? ==> s.socket.value < s.connections)
    && (forall c | c in s.queue :: c < s.connections)
  }

  ghost predicate ActivityInv(s: State) {
    DistinctActivities(s.targets) && forall id | id in s.targets :: s.targets[id].activity <= s.clock
  }

  ghost predicate CursorInv(s: State) {
    && (s.latest.Some? ==> s.latest.value.sequence == s.sequence)
    && (forall id | id in s.waiters :: s.latest.None? || s.waiters[id] == s.sequence)
    && (s.closed ==> s.waiters == map[] && s.socket.None?)
  }

  ghost predicate Inv(s: State) {
    SelectionInv(s) && ActivityInv(s) && CursorInv(s)
  }

  lemma ObserveKeepsActivity(s: State, id: TargetId, isPage: bool, url: string, title: string)
    requires ActivityInv(s)
    ensures ActivityInv(Observe(s, id, isPage, url, title))
  {
    var after := Observe(s, id, isPage, url, title);
    if after != s {
      assert forall x | x in after.targets && x != id :: x in s.targets && after.targets[x] == s.targets[x];
      assert after.targets[id].activity == after.clock ||
          (id in s.targets && after.targets[id].activity == s.targets[id].activity);
    }
  }

  /** A task touches neither frames nor waiters, and the targets only by dropping the connection. */
  ghost predicate TaskFrame(s: State, t: State) {
    && (t.targets == s.targets || t.targets == map[]) && t.clock == s.clock
    && t.latest == s.latest && t.sequence == s.sequence && t.waiters == s.waiters
    && t.closed == s.closed && (s.socket.None? ==> t.socket.None?)
  }

  lemma BeginFrame(s: State, best: Option<TargetId>, edge: nat, open: bool)
    ensures TaskFrame(s, BeginTask(s, best, edge, open))
  {}

  lemma ContinueFrame(s: State, open: bool)
    ensures TaskFrame(s, ContinueTask(s, open))
  {}

  lemma ShowKeepsCursor(s: State, session: string, data: string)
    requires CursorInv(s)
    ensures CursorInv(Show(s, session, data)) && Show(s, session, data).targets == s.targets
    ensures Show(s, session, data).clock == s.clock
  {}

  lemma CallKeepsCursor(s: State, id: nat, after: nat, connects: bool)
    ensures CursorInv(s) ==> CursorInv(CallNext(s, id, after, connects))
    ensures CallNext(s, id, after, connects).targets == s.targets && CallNext(s, id, after, connects).clock == s.clock
  {}

  lemma ObserveKeepsCursor(s: State, id: TargetId, isPage: bool, url: string, title: string)
    requires CursorInv(s)
    ensures CursorInv(Observe(s, id, isPage, url, title))
  {}

  /** Activities stay pairwise distinct, so the best target is always the unique maximum; and cursors stay current. */
  lemma StepKeepsOrder(s: State, e: Event)
    requires ActivityInv(s) && CursorInv(s)
    ensures ActivityInv(Step(s, e)) && CursorInv(Step(s, e))
  {
    match e {
      case Observed(id, isPage, url, title) =>
        ObserveKeepsActivity(s, id, isPage, url, title);
        ObserveKeepsCursor(s, id, isPage, url, title);
      case FrameShown(session, data) => ShowKeepsCursor(s, session, data);
      case Begin(best, edge, open) => BeginFrame(s, best, edge, open);
      case Continue(open) => ContinueFrame(s, open);
      case NextCall(id, after, connects) => CallKeepsCursor(s, id, after, connects);
      case _ =>
    }
  }

  lemma BeginKeepsSelection(s: State, best: Option<TargetId>, edge: nat, open: bool)
    requires SelectionInv(s) && IsBest(s.targets, best)
    ensures SelectionInv(BeginTask(s, best, edge, open))
  {
    if s.queue != [] && s.running.None? {
      var t := BeginTask(s, best, edge, open);
      assert s.queue == [s.queue[0]] + t.queue;
      assert forall c | c in t.queue :: c in s.queue;
      if s.socket == Some(s.queue[0]) {
        BegunOnCourse(s, best, edge, open);
      } else {
        assert t == s.(queue := t.queue) && (OnCourse(t) <==> OnCourse(s));
      }
    }
  }

  lemma BegunOnCourse(s: State, best: Option<TargetId>, edge: nat, open: bool)
    requires IsBest(s.targets, best) && s.queue != [] && s.running.None? && s.socket == Some(s.queue[0])
    ensures var t := BeginTask(s, best, edge, open);
            OnCourse(t) && t.socket == s.socket && (t.running.Some? ==> t.running.value.conn == s.queue[0])
  {}

  lemma ObserveKeepsSelection(s: State, id: TargetId, isPage: bool, url: string, title: string)
    requires SelectionInv(s) && s.socket.Some?
    ensures SelectionInv(Observe(s, id, isPage, url, title))
  {
    var after := Observe(s, id, isPage, url, title);
    assert after == s || after.queue == s.queue + [s.socket.value];
    assert after.cast == s.cast && after.running == s.running && after.socket == s.socket &&
        after.connections == s.connections;
  }

  lemma ContinueKeepsSelection(s: State, open: bool)
    requires SelectionInv(s)
    ensures SelectionInv(ContinueTask(s, open))
  {}

  lemma StepKeepsSelection(s: State, e: Event)
    requires SelectionInv(s) && CursorInv(s) && Enabled(s, e)
    ensures SelectionInv(Step(s, e))
  {
    match e {
      case Begin(best, edge, open) => BeginKeepsSelection(s, best, edge, open);
      case Continue(open) => ContinueKeepsSelection(s, open);
      case Observed(id, isPage, url, title) =>
        if s.socket.Some? { ObserveKeepsSelection(s, id, isPage, url, title); }
      case NextCall(id, after, connects) => CallKeepsSelection(s, id, after, connects);
      case _ =>
    }
  }

  lemma CallKeepsSelection(s: State, id: nat, after: nat, connects: bool)
    requires SelectionInv(s) && CursorInv(s)
    ensures SelectionInv(CallNext(s, id, after, connects))
  {
    var connected := if connects then ConnectNow(s) else s;
    assert SelectionInv(connected);
    assert SelectionInv(Enqueue(connected));
  }

  lemma StepKeepsInv(s: State, e: Event)
    requires Inv(s) && Enabled(s, e)
    ensures Inv(Step(s, e)) && Converged(Step(s, e))
  {
    StepKeepsOrder(s, e);
    StepKeepsSelection(s, e);
    InvConverges(Step(s, e));
  }

  /** Every reachable state, whatever the interleaving. */
  lemma {:induction false} RunKeepsInv(s: State, events: seq<Event>)
    requires Inv(s) && RunOf(s, events)
    ensures Inv(After(s, events))
    decreases |events|
  {
    if events == [] {
    } else {
      StepKeepsInv(s, events[0]);
      RunKeepsInv(Step(s, events[0]), events[1..]);
    }
  }

  // ---- the main results ----

  /** If the chain is drained and a connection is open, the best target is cast, in a session of that connection. */
  ghost predicate Converged(s: State) {
    s.socket.Some? && s.running.None? && s.queue == [] ==> IsBest(s.targets, CastTarget(s)) && CastIsLive(s)
  }

  lemma InvConverges(s: State)
    requires Inv(s)
    ensures Converged(s)
  {}

  /** Selection converges in every reachable state. */
  lemma DrainedCastsBest(events: seq<Event>)
    requires RunOf(INITIAL, events)
    ensures Converged(After(INITIAL, events))
  {
    RunKeepsInv(INITIAL, events);
    InvConverges(After(INITIAL, events));
  }

  /** When may a connection drop? In every state that can be reached, all later runs still converge if and only if no
      settled attach or stop of that connection is waiting to resume. */
  lemma DropIsSafeExactly(s: State)
    requires Inv(s) && s.socket.Some?
    ensures (forall events | RunOf(Step(s, Dropped), events) :: Converged(After(Step(s, Dropped), events))) <==>
              !Resuming(s)
  {
    var dropped := Step(s, Dropped);
    if Resuming(s) {
      var events := StaleAfterDrop(s);
      assert !Converged(After(dropped, events));
    } else {
      StepKeepsOrder(s, Dropped);
      StepKeepsSelection(s, Dropped);
      forall events | RunOf(dropped, events)
        ensures Converged(After(dropped, events))
      {
        RunKeepsInv(dropped, events);
        InvConverges(After(dropped, events));
      }
    }
  }

  /** The two continuations cast the lost session, the chained tasks find no connection, and the next connection starts
      out with a cast that is neither its own nor its best. */
  lemma StaleAfterDrop(s: State) returns (events: seq<Event>)
    requires Inv(s) && Resuming(s)
    ensures RunOf(Step(s, Dropped), events) && !Converged(After(Step(s, Dropped), events))
  {
    var dropped := Step(s, Dropped);
    var cast := Step(dropped, Continue(true));
    var ended := Step(cast, Continue(true));
    assert ended.running.None? && ended.socket.None? && ended.cast.Some? && ended.targets == map[] &&
        ended.queue == s.queue;
    var drained := ended.(queue := []);
    var connected := Step(drained, Connect);
    var last := OnConnect(drained, connected);
    var rest := DrainClosed(ended, last, connected);
    var more := RunCons(cast, Continue(true), ended, rest, connected);
    events := RunCons(dropped, Continue(true), cast, more, connected);
    assert !IsBest(connected.targets, CastTarget(connected));
  }

  lemma OnConnect(s: State, connected: State) returns (events: seq<Event>)
    requires Step(s, Connect) == connected
    ensures RunOf(s, events) && After(s, events) == connected
  {
    events := RunCons(s, Connect, connected, [], connected);
  }

  /** Without a connection, chained tasks end as soon as they start. */
  lemma {:induction false} DrainClosed(s: State, rest: seq<Event>, end: State) returns (events: seq<Event>)
    requires s.socket.None? && s.running.None? && s.targets == map[]
    requires RunOf(s.(queue := []), rest) && After(s.(queue := []), rest) == end
    ensures RunOf(s, events) && After(s, events) == end
    decreases |s.queue|
  {
    if s.queue == [] {
      assert s.(queue := []) == s;
      events := rest;
    } else {
      var next := s.(queue := s.queue[1..]);
      assert Step(s, Begin(None, 0, true)) == next;
      assert next.(queue := []) == s.(queue := []);
      var more := DrainClosed(next, rest, end);
      events := RunCons(s, Begin(None, 0, true), next, more, end);
    }
  }

  lemma RunCons(s: State, e: Event, next: State, rest: seq<Event>, end: State) returns (events: seq<Event>)
    requires Enabled(s, e) && Step(s, e) == next && RunOf(next, rest) && After(next, rest) == end
    ensures events == [e] + rest && RunOf(s, events) && After(s, events) == end
  {
    events := [e] + rest;
    assert events[1..] == rest;
  }

  /** A call is answered at once exactly when there is a frame and its cursor is not the current one; otherwise it
      waits, unless the preview is closed. */
  lemma AnsweredExactly(events: seq<Event>, id: nat, after: nat, connects: bool)
    requires RunOf(INITIAL, events) && !After(INITIAL, events).closed && id !in After(INITIAL, events).waiters
    ensures var s := After(INITIAL, events);
            id !in CallNext(s, id, after, connects).waiters <==> s.latest.Some? && after != s.sequence
  {
    RunKeepsInv(INITIAL, events);
  }

  /** No lost wakeup: a call still waiting has seen the latest frame, or there is none; and closing leaves none
      waiting. */
  lemma WaitersAreCurrent(events: seq<Event>, id: nat)
    requires RunOf(INITIAL, events) && id in After(INITIAL, events).waiters
    ensures var s := After(INITIAL, events);
            !s.closed && (s.latest.None? || (s.latest.value.sequence == s.sequence && s.waiters[id] == s.sequence))
  {
    RunKeepsInv(INITIAL, events);
  }

  /** Runs in which bestTarget is computed right, but a connection may drop at any moment. */
  ghost predicate AnyDrop(s: State, events: seq<Event>)
    decreases |events|
  {
    events == [] || ((events[0].Begin? ==> IsBest(s.targets, events[0].best)) &&
        AnyDrop(Step(s, events[0]), events[1..]))
  }

  /** If a connection drops between the reply to an attach and its continuation, the continuation casts a target of the
      dead connection; the next connection then starts out with a cast that is not its best target. */
  lemma LateContinuationLeavesStaleCast()
    ensures exists events ::
              var s := After(INITIAL, events);
              AnyDrop(INITIAL, events) &&
              s.socket.Some? && s.running.None? && s.queue == [] && !IsBest(s.targets, CastTarget(s))
  {
    var attached := INITIAL.(connections := 1, clock := 1, socket := Some(0), targets := map["t" := Target("u", "", 1)],
                             running := Some(Task(0, Attaching("t", 800), Resolved("x"))));
    var stale := INITIAL.(connections := 2, clock := 1, socket := Some(1), cast := Some(Cast("t", "x", 800, 0)));
    var late := LateEvents(attached, stale);
    var events := AttachEvents(attached, late, stale);
    assert After(INITIAL, events) == stale && !IsBest(stale.targets, CastTarget(stale));
  }

  lemma AttachEvents(attached: State, rest: seq<Event>, end: State) returns (events: seq<Event>)
    requires attached == INITIAL.(connections := 1, clock := 1, socket := Some(0),
               targets := map["t" := Target("u", "", 1)],
                                  running := Some(Task(0, Attaching("t", 800), Resolved("x"))))
    requires AnyDrop(attached, rest) && After(attached, rest) == end
    ensures AnyDrop(INITIAL, events) && After(INITIAL, events) == end
  {
    var attaching := attached.(running := Some(Task(0, Attaching("t", 800), Waiting)));
    var observed := attached.(queue := [0], running := None);
    var connected := INITIAL.(socket := Some(0), connections := 1);
    var e3 := AfterCons(attaching, Replied(Resolved("x")), attached, rest, end);
    assert Step(observed, Begin(Some("t"), 800, true)) == attaching;
    var e2 := AfterCons(observed, Begin(Some("t"), 800, true), attaching, e3, end);
    assert Step(connected, Observed("t", true, "u", "")) == observed;
    var e1 := AfterCons(connected, Observed("t", true, "u", ""), observed, e2, end);
    events := AfterCons(INITIAL, Connect, connected, e1, end);
  }

  lemma LateEvents(attached: State, stale: State) returns (events: seq<Event>)
    requires attached == INITIAL.(connections := 1, clock := 1, socket := Some(0),
               targets := map["t" := Target("u", "", 1)],
                                  running := Some(Task(0, Attaching("t", 800), Resolved("x"))))
    requires stale == INITIAL.(connections := 2, clock := 1, socket := Some(1), cast := Some(Cast("t", "x", 800, 0)))
    ensures AnyDrop(attached, events) && After(attached, events) == stale
  {
    var dropped := attached.(socket := None, targets := map[]);
    var cast := dropped.(cast := Some(Cast("t", "x", 800, 0)), running := Some(Task(0, Starting, Rejected)));
    var ended := cast.(running := None);
    var e3 := AfterCons(ended, Connect, stale, [], stale);
    var e2 := AfterCons(cast, Continue(true), ended, e3, stale);
    var e1 := AfterCons(dropped, Continue(true), cast, e2, stale);
    events := AfterCons(attached, Dropped, dropped, e1, stale);
  }

  lemma AfterCons(s: State, e: Event, next: State, rest: seq<Event>, end: State) returns (events: seq<Event>)
    requires Step(s, e) == next && AnyDrop(next, rest) && After(next, rest) == end
    requires e.Begin? ==> IsBest(s.targets, e.best)
    ensures events == [e] + rest && AnyDrop(s, events) && After(s, events) == end
  {
    events := [e] + rest;
    assert events[1..] == rest;
  }
}
