/**
 The controller's side of one tab as it runs: the record it updates in place, one
 method per synchronous stretch. Every method is proved to take exactly the step that
 `PtyOutput` reasons about.
 */
module PtyTab {
  import opened Text
  import opened CodeUnits
  import opened PtyOutput

  /** The text of the kept parts, in order. */
  function Flatten(parts: seq<JsText>): JsText {
    if parts == [] then [] else parts[0] + Flatten(parts[1..])
  }

  lemma {:induction false} FlattenAppend(parts: seq<JsText>, part: JsText)
    ensures Flatten(parts + [part]) == Flatten(parts) + part
  {
    if parts == [] {
      assert parts + [part] == [part];
      assert part + [] == part;
    } else {
      FlattenAppend(parts[1..], part);
      assert (parts + [part])[1..] == parts[1..] + [part];
      assert parts[0] + (Flatten(parts[1..]) + part) == (parts[0] + Flatten(parts[1..])) + part;
    }
  }

  class PtyTab {
    var attached: bool
    var open: bool
    var running: bool
    var started: bool
    var creating: bool
    var listing: Option<Listing>
    var cursor: nat
    var replayUntil: nat
    var timer: bool
    var poll: Option<nat>
    var rendering: Option<nat>
    var exited: bool
    var outputParts: seq<JsText>
    var outputSize: nat
    // The suspended calls and the promises they wait for.
    var tasks: map<nat, Phase>
    var renders: map<nat, Outcome>
    var nextId: nat
    // What was appended, and the runtime's log: not part of the controller's own record.
    ghost var stream: seq<Chunk>
    ghost var shown: JsText
    ghost var log: JsText

    /** The size counter is exact and no kept part is empty. */
    ghost predicate Valid()
      reads this`outputParts, this`outputSize
    {
      && outputSize == |Flatten(outputParts)| <= MAX_PTY_OUTPUT
      && forall i :: 0 <= i < |outputParts| ==> outputParts[i] != []
    }

    ghost function ScrollView(): Scroll
      reads this`stream, this`shown, this`outputParts
    {
      Scroll(stream, shown, Flatten(outputParts))
    }

    ghost function View(): Tab
      reads this
    {
      Tab(attached, open, running, started, creating, listing, cursor, replayUntil, timer, poll, rendering, exited,
          tasks, renders, nextId, ScrollView(), log)
    }

    constructor Create(ghost runtimeLog: JsText)
      ensures Valid() && View() == CreatedTab(runtimeLog) && Inv(View())
    {
      attached, open, running, started, creating := true, true, false, false, false;
      listing, cursor, replayUntil, timer, poll, rendering, exited := None, 0, 0, false, None, None, false;
      outputParts, outputSize, tasks, renders, nextId := [], 0, map[], map[], 0;
      stream, shown, log := [], [], runtimeLog;
      new;
      InitialHolds(View());
    }

    /** A tab of the session list, published before its turn in `initialize`. */
    constructor List(ghost runtimeLog: JsText, alive: bool, mark: nat)
      ensures Valid() && View() == ListedTab(runtimeLog, Listing(alive, mark)) && Inv(View())
    {
      attached, open, running, started, creating := true, true, alive, true, false;
      listing, cursor, replayUntil, timer := Some(Listing(alive, mark)), 0, 0, false;
      poll, rendering, exited := None, None, false;
      outputParts, outputSize, tasks, renders, nextId := [], 0, map[], map[], 0;
      stream, shown, log := [], [], runtimeLog;
      new;
      assert View() == ListedTab(runtimeLog, Listing(alive, mark));
      InitialHolds(View());
    }

    /** Drop or cut parts at the front until the limit holds. */
    method TrimFront()
      requires outputSize == |Flatten(outputParts)|
      requires forall i :: 0 <= i < |outputParts| ==> outputParts[i] != []
      modifies `outputParts, `outputSize
      ensures Valid()
      ensures Flatten(outputParts) == Last(old(Flatten(outputParts)), MAX_PTY_OUTPUT)
    {
      ghost var whole := Flatten(outputParts);
      while outputSize > MAX_PTY_OUTPUT
        invariant outputSize == |Flatten(outputParts)| <= |whole|
        invariant Flatten(outputParts) == whole[|whole| - outputSize..]
        invariant if |whole| <= MAX_PTY_OUTPUT then outputSize == |whole| else outputSize >= MAX_PTY_OUTPUT
        invariant forall i :: 0 <= i < |outputParts| ==> outputParts[i] != []
        decreases outputSize
      {
        var first := outputParts[0];
        var excess := outputSize - MAX_PTY_OUTPUT;
        ghost var rest := outputParts[1..];
        assert Flatten(outputParts) == first + Flatten(rest);
        if |first| <= excess {
          outputSize := outputSize - |first|;
          outputParts := outputParts[1..];
          assert (first + Flatten(rest))[|first|..] == Flatten(rest);
        } else {
          outputParts := outputParts[0 := first[excess..]];
          outputSize := outputSize - excess;
          assert outputParts[1..] == rest;
          assert (first + Flatten(rest))[excess..] == first[excess..] + Flatten(rest);
        }
      }
      assert whole[0..] == whole;
    }

    /** `append`: push the part, then bring the scrollback back under its limit. */
    method Append(chunk: Chunk)
      requires Valid() && ChunkText(chunk) != []
      modifies `outputParts, `outputSize, `stream, `shown
      ensures Valid()
      ensures ScrollView() == PtyOutput.Append(old(ScrollView()), chunk)
    {
      hide ChunkText, Last;
      var data := ChunkText(chunk);
      FlattenAppend(outputParts, data);
      outputParts := outputParts + [data];
      outputSize := outputSize + |data|;
      TrimFront();
      stream, shown := stream + [chunk], shown + data;
    }

    /** Append unless there is nothing to append. */
    method AppendOutput(text: JsText, replay: bool)
      requires Valid()
      modifies `outputParts, `outputSize, `stream, `shown
      ensures Valid()
      ensures ScrollView() == PtyOutput.AppendOutput(old(ScrollView()), text, replay)
    {
      if text != [] {
        Append(Output(text, replay));
      }
    }

    method StopPoll()
      modifies `timer, `poll
      ensures View() == PtyOutput.StopPoll(old(View()))
    {
      timer := false;
      poll := None;
    }

    /** `poll`: schedule the next one. */
    method SchedulePoll()
      modifies `timer
      ensures View() == Schedule(old(View()))
    {
      if !attached || !open || !running {
        return;
      }
      if poll.Some? || timer {
        return;
      }
      timer := true;
    }

    method Attach()
      modifies `attached, `timer
      ensures View() == Step(old(View()), Event.Attach)
      ensures Inv(old(View())) ==> Inv(View())
    {
      StepKeepsInv(View(), Event.Attach);
      hide Inv;
      attached := true;
      SchedulePoll();
    }

    method Detach()
      modifies `attached, `timer, `poll
      ensures View() == Step(old(View()), Event.Detach)
      ensures Inv(old(View())) ==> Inv(View())
    {
      StepKeepsInv(View(), Event.Detach);
      hide Inv;
      attached := false;
      StopPoll();
    }

    method Reconnect(ready: bool)
      modifies `timer, `poll
      ensures View() == Step(old(View()), Event.Reconnect(ready))
      ensures Inv(old(View())) ==> Inv(View())
    {
      StepKeepsInv(View(), Event.Reconnect(ready));
      hide Inv;
      if !attached || !ready {
        return;
      }
      if open && running {
        StopPoll();
        SchedulePoll();
      }
    }

    /** The end of `close`, once the runtime has let the session go. */
    method Close()
      modifies `open, `timer, `poll
      ensures View() == Step(old(View()), Event.Close)
      ensures Inv(old(View())) ==> Inv(View())
    {
      StepKeepsInv(View(), Event.Close);
      hide Inv;
      if !attached || !open {
        return;
      }
      StopPoll();
      open := false;
    }

    method Clear()
      modifies `outputParts, `outputSize, `shown
      ensures Valid()
      ensures View() == Step(old(View()), Event.Clear)
      ensures Inv(old(View())) ==> Inv(View())
    {
      StepKeepsInv(View(), Event.Clear);
      hide Inv;
      outputParts, outputSize := [], 0;
      shown := [];
    }

    /** `start` up to its first `await`. */
    method Start()
      modifies `creating, `nextId, `tasks
      ensures View() == Step(old(View()), Event.Start)
      ensures Inv(old(View())) ==> Inv(View())
    {
      StepKeepsInv(View(), Event.Start);
      hide Inv;
      if started || creating || !attached || !open {
        return;
      }
      creating := true;
      tasks := tasks[nextId := AwaitResponse(Starter, 0)];
      nextId := nextId + 1;
    }

    /** Text up to the listed length is old from now on. */
    method MarkOld(mark: nat)
      modifies `listing, `replayUntil
      ensures View() == old(View()).(listing := None, replayUntil := mark)
    {
      hide ScrollView;
      listing, replayUntil := None, mark;
    }

    /** Suspend on the one read of a dead session. */
    method ReadOnce()
      modifies `nextId, `tasks
      ensures var v := old(View());
              View() == v.(nextId := v.nextId + 1, tasks := v.tasks[v.nextId := AwaitResponse(Lister, 0)])
    {
      hide ScrollView;
      tasks := tasks[nextId := AwaitResponse(Lister, 0)];
      nextId := nextId + 1;
    }

    /** The tab's turn in `initialize` up to its first `await`. */
    method Adopted()
      requires listing.Some?
      modifies `listing, `replayUntil, `timer, `nextId, `tasks
      ensures View() == Step(old(View()), Event.Adopted)
      ensures Inv(old(View())) ==> Inv(View())
    {
      StepKeepsInv(View(), Event.Adopted);
      hide Inv, Schedule, ScrollView;
      var alive := listing.value.alive;
      assert View().listing == listing;
      MarkOld(listing.value.replayUntil);
      hide View;
      if alive {
        SchedulePoll();
      } else {
        ReadOnce();
      }
    }

    /** A fresh abort controller becomes the owner of the tab. */
    method OwnTab()
      modifies `poll, `nextId, `tasks
      ensures var v := old(View());
              View() == v.(poll := Some(v.nextId), nextId := v.nextId + 1,
                           tasks := v.tasks[v.nextId := if v.rendering.Some? then AwaitRenderer(v.rendering.value)
                                                        else AwaitResponse(Poller, v.cursor)])
    {
      hide ScrollView;
      poll := Some(nextId);
      if rendering.Some? {
        tasks := tasks[nextId := AwaitRenderer(rendering.value)];
      } else {
        tasks := tasks[nextId := AwaitResponse(Poller, cursor)];
      }
      nextId := nextId + 1;
    }

    /** The timer callback up to its first `await`. */
    method TimerFires()
      requires timer
      modifies `timer, `poll, `nextId, `tasks
      ensures View() == Step(old(View()), Event.TimerFires)
      ensures Inv(old(View())) ==> Inv(View())
    {
      StepKeepsInv(View(), Event.TimerFires);
      hide Inv, ScrollView;
      ghost var v := View();
      timer := false;
      assert View() == v.(timer := false);
      if !attached || !open || !running {
        return;
      }
      hide View;
      OwnTab();
    }

    method EndTask(task: nat)
      modifies `tasks
      ensures View() == Drop(old(View()), task)
    {
      tasks := tasks - {task};
    }

    /** The `catch` blocks of the three callers. */
    method CallFails(task: nat, caller: Caller, missing: bool)
      modifies `tasks, `creating, `poll, `running, `timer
      ensures View() == PtyOutput.CallFails(old(View()), task, caller, missing)
    {
      hide ScrollView;
      EndTask(task);
      match caller {
        case Lister =>
        case Starter => creating := false;
        case Poller =>
          if !attached || poll != Some(task) || !open {
            return;
          }
          poll := None;
          if missing {
            running := false;
          } else {
            SchedulePoll();
          }
      }
    }

    /** What each caller does after `accept` returns. */
    method CallEnds(task: nat, caller: Caller, alive: bool)
      modifies `tasks, `creating, `poll, `timer
      ensures View() == PtyOutput.CallEnds(old(View()), task, caller, alive)
    {
      hide ScrollView;
      EndTask(task);
      match caller {
        case Lister =>
        case Starter =>
          creating := false;
          SchedulePoll();
        case Poller =>
          if !attached || poll != Some(task) || !open {
            return;
          }
          poll := None;
          if alive {
            SchedulePoll();
          }
      }
    }

    /** A poll continues after waiting for the renderer. */
    method RendererReady(task: nat)
      requires task in tasks && tasks[task].AwaitRenderer? && Settled(View(), tasks[task].render)
      modifies `tasks, `creating, `poll, `running, `timer
      ensures View() == Step(old(View()), Event.RendererReady(task))
      ensures Inv(old(View())) ==> Inv(View())
    {
      StepKeepsInv(View(), Event.RendererReady(task));
      hide Inv;
      if renders[tasks[task].render] == Rejected {
        CallFails(task, Poller, false);
        return;
      }
      if !attached || poll != Some(task) || !open {
        EndTask(task);
        return;
      }
      tasks := tasks[task := AwaitResponse(Poller, cursor)];
    }

    /** The appends of one answer. */
    method AppendParts(session: Session)
      requires Valid() && |session.output| <= session.nextCursor
      modifies `outputParts, `outputSize, `stream, `shown
      ensures Valid()
      ensures ScrollView() == PtyOutput.AppendAnswer(old(ScrollView()), cursor, replayUntil, session)
    {
      hide PtyOutput.Append, PtyOutput.AppendOutput, ChunkText, Flatten, ScrollView, Valid;
      NoticesNotEmpty(session.status);
      var output := session.output;
      var outputStart := session.nextCursor - |output|;
      var replayLength := if replayUntil <= outputStart then 0
                          else if replayUntil - outputStart < |output| then replayUntil - outputStart else |output|;
      if session.truncated {
        Append(Expired(if outputStart > cursor then outputStart - cursor else 0));
      }
      AppendOutput(output[..replayLength], true);
      AppendOutput(output[replayLength..], false);
    }

    /** The appends of one answer, before its cursor is claimed. */
    method AppendAnswer(session: Session)
      requires Valid() && |session.output| <= session.nextCursor
      modifies `outputParts, `outputSize, `stream, `shown
      ensures Valid()
      ensures var v := old(View());
              View() == v.(scroll := PtyOutput.AppendAnswer(v.scroll, v.cursor, v.replayUntil, session))
    {
      hide PtyOutput.AppendAnswer, ScrollView, Valid;
      AppendParts(session);
    }

    /** Claim the cursor of an answer and show its session as connected. */
    method Claim(session: Session)
      modifies `cursor, `running, `started
      ensures View() == old(View()).(cursor := session.nextCursor, running := session.running, started := true)
    {
      hide ScrollView;
      cursor := session.nextCursor;
      running := session.running;
      started := true;
    }

    /** Remember the rendering of what was just appended and suspend on it. */
    method AwaitRendering(task: nat, caller: Caller, session: Session)
      modifies `rendering, `renders, `tasks, `nextId
      ensures var v := old(View());
              View() == v.(rendering := Some(v.nextId), renders := v.renders[v.nextId := Pending], nextId := v.nextId + 1,
                           tasks := v.tasks[task := Rendering(caller, v.nextId, session.running, session.status)])
    {
      hide ScrollView;
      rendering := Some(nextId);
      renders := renders[nextId := Pending];
      tasks := tasks[task := Rendering(caller, nextId, session.running, session.status)];
      nextId := nextId + 1;
    }

    /** `accept` up to its first `await`. */
    method Accept(task: nat, caller: Caller, session: Session)
      requires Valid() && |session.output| <= session.nextCursor
      modifies this
      ensures Valid()
      ensures View() == PtyOutput.Accept(old(View()), task, caller, session)
    {
      hide PtyOutput.AppendAnswer, View, Valid;
      AppendAnswer(session);
      Claim(session);
      AwaitRendering(task, caller, session);
    }

    /** An answer arrives for a call that waits for one. */
    method Responds(task: nat, session: Session)
      requires Valid() && task in tasks && tasks[task].AwaitResponse?
      requires Conforms(log, tasks[task].cursor, session)
      modifies this
      ensures Valid()
      ensures View() == Step(old(View()), Event.Responds(task, session))
      ensures Inv(old(View())) ==> Inv(View())
    {
      StepKeepsInv(View(), Event.Responds(task, session));
      hide Inv, PtyOutput.Accept, ScrollView, Valid, PtyOutput.Drop;
      var caller := tasks[task].caller;
      assert View().attached == attached && View().open == open && View().poll == poll && View().tasks == tasks && View().log == log;
      hide View;
      if !attached || !open || (caller.Poller? && poll != Some(task)) {
        GiveUp(task, caller);
      } else {
        Accept(task, caller, session);
      }
    }

    /** An answer nobody waits for ends its call. */
    method GiveUp(task: nat, caller: Caller)
      modifies `tasks, `creating
      ensures var dropped := Drop(old(View()), task);
              View() == if caller.Starter? then dropped.(creating := false) else dropped
    {
      hide ScrollView;
      EndTask(task);
      if caller.Starter? {
        creating := false;
      }
    }

    method MarkExited(task: nat, caller: Caller)
      modifies `exited, `tasks
      ensures var v := old(View());
              View() == v.(exited := true, tasks := v.tasks[task := RenderingExit(caller)])
    {
      hide ScrollView;
      exited := true;
      tasks := tasks[task := RenderingExit(caller)];
    }

    /** Append the exit notice and suspend on its rendering. */
    method ShowExit(task: nat, caller: Caller, status: JsText)
      requires Valid()
      modifies `exited, `tasks, `outputParts, `outputSize, `stream, `shown
      ensures Valid()
      ensures var v := old(View());
              View() == v.(scroll := PtyOutput.Append(v.scroll, Exited(status)), exited := true,
                           tasks := v.tasks[task := RenderingExit(caller)])
    {
      hide PtyOutput.Append, ChunkText, ScrollView, Valid;
      MarkExited(task, caller);
      NoticesNotEmpty(status);
      ghost var v := View();
      Append(Exited(status));
      assert View() == v.(scroll := PtyOutput.Append(v.scroll, Exited(status)));
    }

    method ForgetRendering(render: nat)
      modifies `rendering
      ensures var v := old(View());
              View() == if v.rendering == Some(render) then v.(rendering := None) else v
    {
      hide ScrollView;
      if rendering == Some(render) {
        rendering := None;
      }
    }

    /** The rest of `accept` once its chunks are rendered. */
    method AfterRendering(task: nat, phase: Phase)
      requires Valid() && phase.Rendering?
      modifies this
      ensures Valid()
      ensures View() == PtyOutput.AfterRendering(old(View()), task, phase.caller, phase.render, phase.running, phase.status)
    {
      hide PtyOutput.Append, ScrollView, PtyOutput.CallEnds, Valid;
      assert View().attached == attached && View().open == open && View().poll == poll && View().exited == exited;
      assert View().tasks == tasks;
      ForgetRendering(phase.render);
      hide View;
      var current := attached && open && (phase.caller.Poller? ==> poll == Some(task));
      if current && !phase.running && !exited {
        ShowExit(task, phase.caller, phase.status);
      } else {
        CallEnds(task, phase.caller, phase.running);
      }
    }

    /** `accept` continues once its chunks are rendered, or a sink rejected. */
    method Accepted(task: nat)
      requires Valid() && task in tasks && tasks[task].Rendering? && Settled(View(), tasks[task].render)
      modifies this
      ensures Valid()
      ensures View() == Step(old(View()), Event.Accepted(task))
      ensures Inv(old(View())) ==> Inv(View())
    {
      StepKeepsInv(View(), Event.Accepted(task));
      hide Inv, ScrollView, PtyOutput.CallFails, PtyOutput.AfterRendering, Valid;
      var phase := tasks[task];
      assert View().tasks == tasks && View().renders == renders;
      hide View;
      if renders[phase.render] == Rejected {
        CallFails(task, phase.caller, false);
      } else {
        AfterRendering(task, phase);
      }
    }

    /** `accept` returns, or throws, after the exit notice. */
    method ExitShown(task: nat, ok: bool)
      requires task in tasks && tasks[task].RenderingExit?
      modifies `tasks, `creating, `poll, `running, `timer
      ensures View() == Step(old(View()), Event.ExitShown(task, ok))
      ensures Inv(old(View())) ==> Inv(View())
    {
      StepKeepsInv(View(), Event.ExitShown(task, ok));
      hide Inv;
      if ok {
        CallEnds(task, tasks[task].caller, false);
      } else {
        CallFails(task, tasks[task].caller, false);
      }
    }
  }

  lemma StepKeepsInv(s: Tab, e: Event)
    ensures Inv(s) ==> Inv(Step(s, e))
  {
    hide Inv, Step;
    if Inv(s) {
      StepKeeps(s, e);
    }
  }

  lemma NoticesNotEmpty(status: JsText)
    ensures forall n :: ChunkText(Expired(n)) != []
    ensures ChunkText(Exited(status)) != []
  {
  }
}
