/** What the preview shows: which page, at which size, and what a frame carries. */
module PreviewShows {
  import opened Basics
  import opened Preview

  // ---- which page ----

  /** A page with an address of its own. */
  predicate IsRealPage(t: Target) {
    t.url != "" && t.url != "about:blank"
  }

  /** The best target is the most recently active real page; only without any is it the most recently active blank
      one. */
  lemma BestExactly(targets: Targets, id: TargetId)
    requires DistinctActivities(targets) && id in targets
    ensures IsBest(targets, Some(id)) <==>
              if exists other :: other in targets && IsRealPage(targets[other])
              then IsRealPage(targets[id]) &&
                   forall other | other in targets && IsRealPage(targets[other]) ::
                     targets[other].activity <= targets[id].activity
              else forall other | other in targets :: targets[other].activity <= targets[id].activity
  {
    assert forall t: Target :: Rank(t) == 1 <==> IsRealPage(t);
    assert forall other | other in targets && other != id :: targets[other].activity != targets[id].activity;
    if IsBest(targets, Some(id)) {
      forall other | other in targets && other != id
        ensures Beats(targets[id], targets[other])
      {
      }
    }
  }

  // ---- what a frame carries ----

  /** The text itself if it fits, else its first n characters. */
  predicate Truncated(short: string, long: string, n: nat) {
    short <= long && |short| == if |long| < n then |long| else n
  }

  /** A frame of the cast session, unless it is too large, becomes the latest one: its data, and the address and title
      of the page cast, under the next sequence number. Everything else is ignored. */
  lemma FrameExactly(s: State, session: string, data: string)
    requires s.socket.Some?
    ensures var t := Step(s, FrameShown(session, data));
            if s.cast.Some? && s.cast.value.session == session && |data| <= 700_000 then
              && t.latest.Some? && t.latest.value.data == data && t.latest.value.sequence == s.sequence + 1
              && t.sequence == s.sequence + 1
              && (s.cast.value.target in s.targets ==>
                    && Truncated(t.latest.value.url, s.targets[s.cast.value.target].url, 2000)
                    && Truncated(t.latest.value.title, s.targets[s.cast.value.target].title, 300))
            else t == s
  {}

  /** When the page cast changes its address or title, the latest frame keeps its data and takes these over. */
  lemma RenameExactly(s: State, id: TargetId, url: string, title: string)
    requires s.socket.Some? && s.latest.Some? && CastTarget(s) == Some(id)
    requires !(id in s.targets && s.targets[id].url == url && s.targets[id].title == title)
    ensures var t := Step(s, Observed(id, true, url, title));
            && t.latest.Some? && t.latest.value.data == s.latest.value.data
            && t.latest.value.sequence == s.sequence + 1 == t.sequence
            && Truncated(t.latest.value.url, url, 2000) && Truncated(t.latest.value.title, title, 300)
  {}

  // ---- at which size ----

  /** The edge asked for last on the current connection: what the last selection task that ran on it wanted. */
  function Wanted(s: State, want: Option<nat>, e: Event): Option<nat> {
    if Step(s, e).socket != s.socket then None
    else if e.Begin? && s.queue != [] && s.running.None? && s.socket == Some(s.queue[0]) then Some(e.edge)
    else want
  }

  function WantedAfter(s: State, want: Option<nat>, events: seq<Event>): Option<nat>
    decreases |events|
  {
    if events == [] then want else WantedAfter(Step(s, events[0]), Wanted(s, want, events[0]), events[1..])
  }

  /** The task under way for this connection carries the edge wanted; otherwise what is cast has it. */
  predicate EdgeInv(s: State, want: Option<nat>) {
    s.closed ||
    (&& (s.socket.None? ==> s.cast.None?)
     && (s.socket.Some? ==>
           if s.running.Some? && s.socket == Some(s.running.value.conn) && !s.running.value.stage.Starting? then
             && want == Some(s.running.value.stage.edge)
             && (s.cast.Some? ==> s.running.value.stage.Stopping?)
           else s.cast.Some? ==> want == Some(s.cast.value.edge)))
  }

  /** A task of an earlier connection cannot cast any more. */
  predicate OthersAreDone(s: State) {
    s.closed ||
    (s.running.Some? && s.socket != Some(s.running.value.conn) ==>
       s.running.value.reply.Rejected? || s.running.value.stage.Detaching? || s.running.value.stage.Starting?)
  }

  lemma StepKeepsEdge(s: State, want: Option<nat>, e: Event)
    requires Inv(s) && Enabled(s, e) && EdgeInv(s, want)
    ensures EdgeInv(Step(s, e), Wanted(s, want, e))
  {
    match e
    case Continue(open) => ContinueKeepsEdge(s, want, open);
    case Begin(best, edge, open) => BeginKeepsEdge(s, want, best, edge, open);
    case _ =>
  }

  lemma BeginKeepsEdge(s: State, want: Option<nat>, best: Option<TargetId>, edge: nat, open: bool)
    requires EdgeInv(s, want)
    ensures EdgeInv(BeginTask(s, best, edge, open), Wanted(s, want, Begin(best, edge, open)))
  {}

  lemma ContinueKeepsEdge(s: State, want: Option<nat>, open: bool)
    requires OthersAreDone(s) && EdgeInv(s, want)
    ensures EdgeInv(ContinueTask(s, open), Wanted(s, want, Continue(open)))
  {}

  lemma {:induction false} RunKeepsEdge(s: State, want: Option<nat>, events: seq<Event>)
    requires Inv(s) && RunOf(s, events) && EdgeInv(s, want)
    ensures EdgeInv(After(s, events), WantedAfter(s, want, events)) && Inv(After(s, events))
    decreases |events|
  {
    if events == [] {
    } else {
      StepKeepsInv(s, events[0]);
      StepKeepsEdge(s, want, events[0]);
      RunKeepsEdge(Step(s, events[0]), Wanted(s, want, events[0]), events[1..]);
    }
  }

  /** Over every run: once the selection chain is drained, the cast has the edge asked for last on its connection. */
  lemma DrainedHasWantedEdge(events: seq<Event>)
    requires RunOf(INITIAL, events)
    ensures var s := After(INITIAL, events);
            s.socket.Some? && s.running.None? && s.queue == [] && s.cast.Some? ==>
              WantedAfter(INITIAL, None, events) == Some(s.cast.value.edge)
  {
    RunKeepsEdge(INITIAL, None, events);
  }

  // ---- what an event changes ----

  /** Only what is new about a page counts: a page first seen, or seen under another address, becomes the most recently
      active one; one with only another title stays where it was. Either way the selection is looked at again. */
  lemma ObserveExactly(s: State, id: TargetId, isPage: bool, url: string, title: string)
    requires Inv(s) && s.socket.Some?
    ensures var t := Step(s, Observed(id, isPage, url, title));
            if !isPage || (id in s.targets && s.targets[id].url == url && s.targets[id].title == title) then t == s
            else
              && id in t.targets && t.targets[id].url == url && t.targets[id].title == title
              && (if id in s.targets && s.targets[id].url == url then t.targets[id].activity == s.targets[id].activity
                  else forall other | other in s.targets :: s.targets[other].activity < t.targets[id].activity)
              && SameElsewhere(s, t, id) && t.cast == s.cast && t.queue == s.queue + [s.socket.value]
              && (s.latest.None? || CastTarget(s) != Some(id) ==>
                    t.latest == s.latest && t.sequence == s.sequence && t.waiters == s.waiters)
  {
    assert s.waiters == Notify(s).waiters;
  }

  /** Every other page stays as it was. */
  ghost predicate SameElsewhere(s: State, t: State, id: TargetId) {
    forall other | other != id ::
      (other in t.targets <==> other in s.targets) &&
      (other in t.targets ==> t.targets[other] == s.targets[other])
  }

  /** A page that goes takes its own cast with it, and a session that is detached its own; the selection is then looked
      at again. */
  lemma LossExactly(s: State, id: TargetId, session: string)
    requires s.socket.Some?
    ensures var t := Step(s, Destroyed(id));
            && id !in t.targets && SameElsewhere(s, t, id) && t.queue == s.queue + [s.socket.value]
            && (if s.cast.Some? && s.cast.value.target == id then t.cast.None? else t.cast == s.cast)
    ensures var t := Step(s, Detached(session));
            if s.cast.Some? && s.cast.value.session == session
            then t.cast.None? && t.queue == s.queue + [s.socket.value] && t.targets == s.targets
            else t == s
  {}

  /** Without a connection nothing arrives. */
  lemma NothingArrives(s: State, e: Event)
    requires s.socket.None? && (e.Observed? || e.Destroyed? || e.Detached? || e.FrameShown?)
    ensures Step(s, e) == s
  {}

  /** A call opens a connection when it may and there is none, and has the selection looked at again; one that gives up
      waits no longer, and the others wait on; closing answers all and gives up the connection, once. */
  lemma CallsExactly(s: State, caller: nat, after: nat, connects: bool)
    ensures var t := Step(s, NextCall(caller, after, connects));
            if s.closed then t == s
            else
              && t.socket == (if s.socket.None? && connects then Some(s.connections) else s.socket)
              && t.queue == s.queue + (if t.socket.Some? then [t.socket.value] else [])
    ensures var t := Step(s, Gone(caller));
            caller !in t.waiters && forall w | w in s.waiters && w != caller :: w in t.waiters
    ensures var t := Step(s, Close);
            if s.closed then t == s
            else t.closed && t.waiters == map[] && t.socket.None? && t.cast.None? && t.latest == s.latest
  {}

  // ---- the selection gets there ----

  /** How many more calls a task makes at most. */
  function CallsLeft(stage: Stage): nat {
    match stage
    case Detaching(_, _) => 2
    case Attaching(_, _) => 1
    case Stopping(_, _, _) => 1
    case Starting => 0
  }

  /** A task resumes only when its call has been answered, and then ends or has fewer calls left; the next call is
      refused at once if the connection is not open. */
  lemma ContinueAdvances(s: State, open: bool)
    ensures var t := Step(s, Continue(open));
            if s.running.None? || s.running.value.reply.Waiting? then t == s
            else
              || t.running.None?
              || (CallsLeft(t.running.value.stage) < CallsLeft(s.running.value.stage) &&
                  (!open ==> t.running.value.reply.Rejected?))
  {}

  /** So is the first call of a task. */
  lemma FirstCallNeedsOpen(s: State, best: Option<TargetId>, edge: nat)
    requires s.running.None?
    ensures var t := Step(s, Begin(best, edge, false)); t.running.Some? ==> t.running.value.reply.Rejected?
    ensures var t := Step(s, Begin(best, edge, true)); t.running.Some? ==> t.running.value.reply.Waiting?
  {}

  /** No call of the current connection has failed, except one to detach. */
  predicate Healthy(s: State) {
    s.running.Some? && s.socket == Some(s.running.value.conn) && s.running.value.reply.Rejected? ==>
      s.running.value.stage.Detaching?
  }

  /** Replies, and the selection's own steps. */
  predicate OwnSteps(events: seq<Event>) {
    forall e | e in events :: e.Replied? || e.Begin? || e.Continue?
  }

  /** Some run of these steps ends here. */
  ghost predicate Reaches(s: State, t: State) {
    exists events :: OwnSteps(events) && RunOf(s, events) && After(s, events) == t
  }

  lemma ReachesItself(s: State)
    ensures Reaches(s, s)
  {
    assert OwnSteps([]) && RunOf(s, []) && After(s, []) == s;
  }

  lemma ReachesAfter(s: State, e: Event, t: State)
    requires Enabled(s, e) && (e.Replied? || e.Begin? || e.Continue?) && Reaches(Step(s, e), t)
    ensures Reaches(s, t)
  {
    var rest :| OwnSteps(rest) && RunOf(Step(s, e), rest) && After(Step(s, e), rest) == t;
    var events := RunCons(s, e, Step(s, e), rest, t);
    assert OwnSteps(events);
  }

  /** The targets always have a best one, unless there is none. */
  lemma {:induction false} HasBest(targets: Targets) returns (best: Option<TargetId>)
    requires DistinctActivities(targets)
    ensures IsBest(targets, best)
    decreases |targets|
  {
    if targets == map[] {
      best := None;
    } else {
      var id :| id in targets;
      var others := targets - {id};
      assert forall other | other in targets && other != id :: other in others;
      best := HasBest(others);
      if best.None? || Beats(targets[id], targets[best.value]) {
        best := Some(id);
      }
    }
  }

  predicate Drained(s: State) {
    s.running.None? && s.queue == []
  }

  /** What the running task still has to wait for. */
  function Work(s: State): nat {
    if s.running.None? then 0
    else 2 * (1 + CallsLeft(s.running.value.stage)) + if s.running.value.reply.Waiting? then 1 else 0
  }

  ghost predicate Advances(s: State, t: State) {
    && Healthy(t) && t.socket == s.socket && t.targets == s.targets
    && (|t.queue| < |s.queue| || (t.queue == s.queue && Work(t) < Work(s)))
  }

  lemma BeginAdvances(s: State, best: Option<TargetId>)
    requires s.running.None? && s.queue != []
    ensures Advances(s, Step(s, Begin(best, 0, true)))
  {}

  lemma NextStep(s: State) returns (e: Event)
    requires Inv(s) && Healthy(s) && !Drained(s)
    ensures Enabled(s, e) && (e.Replied? || e.Begin? || e.Continue?) && Advances(s, Step(s, e))
  {
    if s.running.None? {
      var best := HasBest(s.targets);
      e := Begin(best, 0, true);
      BeginAdvances(s, best);
    } else if s.running.value.reply.Waiting? {
      e := Replied(Resolved(""));
    } else {
      e := Continue(true);
      ContinueAdvances(s, true);
    }
  }

  /** Whenever no call has failed, replies alone can drain the chain, and then the best page is cast. */
  lemma {:induction false} SelectionFinishes(s: State) returns (t: State)
    requires Inv(s) && Healthy(s)
    ensures Reaches(s, t) && Drained(t) && t.socket == s.socket && t.targets == s.targets
    ensures s.socket.Some? ==> IsBest(s.targets, CastTarget(t))
    decreases |s.queue|, Work(s)
  {
    if Drained(s) {
      t := s;
      ReachesItself(s);
      InvConverges(s);
    } else {
      var e := NextStep(s);
      StepKeepsInv(s, e);
      t := SelectionFinishes(Step(s, e));
      ReachesAfter(s, e, t);
    }
  }
}
