/** The preview's closures over their mutable variables. Each method is one step of the state machine in Preview,
    keeps its invariant, and says what the step means to a caller. */
module LivePreview {
  import opened Basics
  import opened Preview

  class PreviewSource {
    var targets: Targets
    var socket: Option<nat>
    var connections: nat
    var cast: Option<Cast>
    var latest: Option<Frame>
    var sequence: nat
    var activityClock: nat
    var running: Option<Task>
    var selection: seq<nat>
    var waiters: map<nat, nat>
    var closed: bool

    function View(): State
      reads this
    {
      State(targets, socket, connections, cast, latest, sequence, activityClock, running, selection, waiters, closed)
    }

    constructor ()
      ensures View() == INITIAL && Inv(View())
    {
      targets, socket, connections, cast, latest := map[], None, 0, None, None;
      sequence, activityClock, running, selection, waiters, closed := 0, 0, None, [], map[], false;
    }

    /** for (const waiter of [...waiters]) waiter.check() */
    method CheckWaiters()
      modifies this`waiters
      ensures View() == Notify(old(View()))
    {
      var todo := waiters.Keys;
      while todo != {}
        invariant todo <= old(waiters).Keys
        invariant forall id :: id in waiters <==>
            id in old(waiters) && (id in todo || !Ready(latest, sequence, old(waiters)[id]))
        invariant forall id | id in waiters :: waiters[id] == old(waiters)[id]
        decreases todo
      {
        var id :| id in todo;
        todo := todo - {id};
        if Ready(latest, sequence, waiters[id]) {
          waiters := waiters - {id};
        }
      }
      assert waiters == Notify(old(View())).waiters;
    }

    method Disconnect()
      modifies this
      ensures View() == Preview.Disconnect(old(View()))
    {
      socket, cast, targets := None, None, map[];
      if running.Some? && running.value.reply.Waiting? {
        running := Some(running.value.(reply := Rejected));
      }
    }

    /** The connection closed, failed or went idle. */
    method Drop()
      requires Inv(View()) && !Resuming(View())
      modifies this
      ensures View() == Step(old(View()), Dropped) && Inv(View())
      ensures socket.None? && cast.None? && latest == old(latest) && waiters == old(waiters)
    {
      StepKeepsInv(View(), Dropped);
      Disconnect();
    }

    /** The call the running task awaits is answered. */
    method Answer(reply: Reply)
      requires Inv(View()) && running.Some? && running.value.reply.Waiting?
      modifies this`running
      ensures View() == Step(old(View()), Replied(reply)) && Inv(View())
    {
      StepKeepsInv(View(), Replied(reply));
      running := Some(running.value.(reply := reply));
    }

    method Select()
      modifies this`selection
      ensures View() == Enqueue(old(View()))
    {
      if socket.Some? { selection := selection + [socket.value]; }
    }

    method Observe(id: TargetId, isPage: bool, url: string, title: string)
      requires Inv(View()) && socket.Some?
      modifies this
      ensures View() == Step(old(View()), Observed(id, isPage, url, title)) && Inv(View())
      ensures isPage ==> id in targets && targets[id].url == url && targets[id].title == title
      ensures forall w | w in waiters :: w in old(waiters) && (latest.None? || waiters[w] == sequence)
    {
      StepKeepsInv(View(), Observed(id, isPage, url, title));
      if !isPage { return; }
      if id in targets && targets[id].url == url && targets[id].title == title { return; }
      NoteTarget(id, url, title);
      RefreshLatest(id, url, title);
      Select();
    }

    method NoteTarget(id: TargetId, url: string, title: string)
      modifies this`targets, this`activityClock
      ensures View() == Note(old(View()), id, url, title)
    {
      var activity;
      if id in targets && targets[id].url == url {
        activity := targets[id].activity;
      } else {
        activityClock := activityClock + 1;
        activity := activityClock;
      }
      targets := targets[id := Target(url, title, activity)];
    }

    method RefreshLatest(id: TargetId, url: string, title: string)
      modifies this`sequence, this`latest, this`waiters
      ensures View() == Refresh(old(View()), id, url, title)
    {
      if latest.Some? && cast.Some? && cast.value.target == id {
        sequence := sequence + 1;
        latest := Some(latest.value.(sequence := sequence, url := Prefix(url, 2000), title := Prefix(title, 300)));
        CheckWaiters();
      }
    }

    method TargetDestroyed(id: TargetId)
      requires Inv(View()) && socket.Some?
      modifies this
      ensures View() == Step(old(View()), Destroyed(id)) && Inv(View())
      ensures id !in targets && CastTarget(View()) != Some(id)
    {
      StepKeepsInv(View(), Destroyed(id));
      targets := targets - {id};
      if cast.Some? && cast.value.target == id { cast := None; }
      Select();
    }

    method DetachedFromTarget(session: string)
      requires Inv(View()) && socket.Some?
      modifies this
      ensures View() == Step(old(View()), Detached(session)) && Inv(View())
      ensures cast.Some? ==> cast == old(cast) && cast.value.session != session
    {
      StepKeepsInv(View(), Detached(session));
      if cast.None? || cast.value.session != session { return; }
      cast := None;
      Select();
    }

    method ScreencastFrame(session: string, data: string)
      requires Inv(View()) && socket.Some?
      modifies this
      ensures View() == Step(old(View()), FrameShown(session, data)) && Inv(View())
      ensures latest != old(latest) ==> cast.Some? && cast.value.session == session && waiters.Values <= {sequence}
    {
      StepKeepsInv(View(), FrameShown(session, data));
      if cast.None? || cast.value.session != session { return; }
      var id := cast.value.target;
      if |data| <= MAX_FRAME_CHARS {
        sequence := sequence + 1;
        latest := Some(Frame(sequence, data,
                             Prefix(if id in targets then targets[id].url else "", 2000),
                             Prefix(if id in targets then targets[id].title else "", 300)));
        CheckWaiters();
      }
    }

    /** A chained selection task runs up to its first await. */
    method BeginSelection(edge: nat, open: bool) returns (ghost best: Option<TargetId>)
      requires Inv(View()) && selection != [] && running.None?
      modifies this
      ensures IsBest(old(targets), best)
      ensures View() == Step(old(View()), Begin(best, edge, open)) && Inv(View()) && Converged(View())
    {
      ghost var before := View();
      var conn := selection[0];
      selection := selection[1..];
      var target := BestTarget(targets);
      best := target;
      StepKeepsInv(before, Begin(best, edge, open));
      if socket != Some(conn) { return; }
      var reply := if open then Waiting else Rejected;
      if target == (if cast.Some? then Some(cast.value.target) else None) && (cast.None? || cast.value.edge == edge) {
        return;
      }
      if cast.Some? && Some(cast.value.target) == target {
        running := Some(Task(conn, Stopping(cast.value.target, cast.value.session, edge), reply));
      } else {
        var previous := cast;
        cast := None;
        if previous.Some? {
          running := Some(Task(conn, Detaching(target, edge), reply));
        } else if target.Some? {
          running := Some(Task(conn, Attaching(target.value, edge), reply));
        }
      }
    }

    /** The task resumes after its await, runs to the next one, or ends in its catch. */
    method ContinueSelection(open: bool)
      requires Inv(View()) && running.Some? && !running.value.reply.Waiting?
      modifies this
      ensures View() == Step(old(View()), Continue(open)) && Inv(View())
      // once nothing runs and nothing is chained, the best target is cast in a session of the current connection
      ensures Converged(View())
    {
      StepKeepsInv(View(), Continue(open));
      var task := running.value;
      if task.reply.Rejected? && !task.stage.Detaching? {
        running := None;
        if socket == Some(task.conn) { Disconnect(); }
        return;
      }
      var reply := if socket == Some(task.conn) && open then Waiting else Rejected;
      match task.stage {
        case Stopping(target, session, edge) =>
          cast := Some(Cast(target, session, edge, task.conn));
          running := Some(Task(task.conn, Starting, reply));
        case Detaching(next, edge) =>
          running := if next.None? then None else Some(Task(task.conn, Attaching(next.value, edge), reply));
        case Attaching(target, edge) =>
          cast := Some(Cast(target, task.reply.session, edge, task.conn));
          running := Some(Task(task.conn, Starting, reply));
        case Starting =>
          running := None;
      }
    }

    /** A call for a frame newer than the caller's cursor: answered at once, or registered as a waiter. */
    method Next(caller: nat, after: nat, connects: bool) returns (frame: Option<Frame>)
      requires Inv(View()) && caller !in waiters
      modifies this
      ensures View() == Step(old(View()), NextCall(caller, after, connects)) && Inv(View())
      ensures frame == if !old(closed) && after != old(sequence) then old(latest) else None
      ensures frame.None? && !old(closed) <==> caller in waiters
    {
      StepKeepsInv(View(), NextCall(caller, after, connects));
      if closed { return None; }
      if connects && socket.None? {
        socket := Some(connections);
        connections := connections + 1;
      }
      Select();
      if Ready(latest, sequence, after) { return latest; }
      waiters := waiters[caller := after];
      frame := None;
    }

    /** Nobody waits any more, and no connection is left. */
    method CloseSource()
      requires Inv(View())
      modifies this
      ensures View() == Step(old(View()), Close) && Inv(View())
      ensures closed && waiters == map[] && socket.None?
    {
      StepKeepsInv(View(), Close);
      if closed { return; }
      closed := true;
      Disconnect();
      waiters := map[];
    }
  }
}
