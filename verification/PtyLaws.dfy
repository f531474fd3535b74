/**
 What the user of a PTY tab sees, told without the controller's stretches: answers appear,
 polls go on and stop, and a tab that is away stays silent.
 */
module PtyLaws {
  import opened Text
  import opened CodeUnits
  import opened PtyOutput

  // ---------------------------------------------------------- answers appear

  lemma AppendShows(scroll: Scroll, chunk: Chunk)
    ensures Append(scroll, chunk).shown == scroll.shown + ChunkText(chunk)
  {
  }

  lemma AnswerAppended(scroll: Scroll, cursor: nat, replayUntil: nat, session: Session)
    ensures AppendAnswer(scroll, cursor, replayUntil, session).shown
         == scroll.shown + (if session.truncated then EXPIRED_NOTICE else []) + session.output
  {
    var start := session.nextCursor - |session.output|;
    var n := ReplayLength(replayUntil, start, session.output);
    var gap := Expired(if start > cursor then start - cursor else 0);
    AppendShows(scroll, gap);
    var s1 := if session.truncated then Append(scroll, gap) else scroll;
    var old1, new1 := session.output[..n], session.output[n..];
    assert s1.shown == scroll.shown + if session.truncated then EXPIRED_NOTICE else [];
    AppendShows(s1, Output(old1, true));
    var s2 := AppendOutput(s1, old1, true);
    AppendShows(s2, Output(new1, false));
    hide Append, EXPIRED_NOTICE, ReplayLength;
    assert s2.shown == s1.shown + old1;
    assert AppendOutput(s2, new1, false).shown == s2.shown + new1;
    assert session.output == old1 + new1;
    Associative(s1.shown, old1, new1);
  }

  /** The answer to a believed call appears as a whole, behind a notice if text had expired, and moves the cursor. */
  lemma AnswerIsShown(s: Tab, task: nat, session: Session)
    requires Inv(s) && Believed(s, task) && Conforms(s.log, s.tasks[task].cursor, session)
    ensures var s' := Step(s, Responds(task, session));
            && s'.scroll.shown == s.scroll.shown + (if session.truncated then EXPIRED_NOTICE else []) + session.output
            && s'.cursor == session.nextCursor && s'.running == session.running && s'.started
  {
    hide Inv, AppendAnswer, Conforms;
    AnswerAppended(s.scroll, s.cursor, s.replayUntil, session);
  }

  lemma AcceptedOnce(s: Tab, task: nat, session: Session)
    requires Inv(s) && Believed(s, task) && Conforms(s.log, s.tasks[task].cursor, session)
    ensures var caller, r := s.tasks[task].caller, s.nextId;
            var s' := Step(Step(s, Responds(task, session)), Settles(r, Fulfilled));
            && s'.poll == s.poll && s'.attached && s'.open && s'.running == session.running && s'.exited == s.exited
            && s'.cursor == session.nextCursor && !s'.timer
            && s'.scroll == Step(s, Responds(task, session)).scroll
            && r in s'.renders && s'.renders[r] == Fulfilled
            && task in s'.tasks && s'.tasks[task] == Rendering(caller, r, session.running, session.status)
  {
    BelievedFacts(s, task, task);
    hide Inv, AppendAnswer, Conforms;
    assert s.tasks[task].caller.Poller? || !s.tasks[task].caller.Poller?;
  }

  /** Once its rendering is done, a poll of a living shell schedules the next one. */
  lemma PollsGoOn(s: Tab, task: nat, session: Session)
    requires Inv(s) && Believed(s, task) && Conforms(s.log, s.tasks[task].cursor, session) && session.running
    requires s.tasks[task].caller.Poller? || (s.tasks[task].caller.Starter? && s.poll.None?)
    ensures var s' := Run(s, [Responds(task, session), Settles(s.nextId, Fulfilled), Accepted(task)]);
            s'.timer && s'.poll.None? && s'.cursor == session.nextCursor
  {
    AcceptedOnce(s, task, session);
    RunOfThree(s, Responds(task, session), Settles(s.nextId, Fulfilled), Accepted(task));
    var s2 := Step(Step(s, Responds(task, session)), Settles(s.nextId, Fulfilled));
    assert Live(s, task) ==> Live(s2, task);
    hide Inv, Run, Believed, Conforms;
    GoesOn(s2, task, s.nextId);
  }

  lemma GoesOn(s: Tab, task: nat, render: nat)
    requires task in s.tasks && s.tasks[task].Rendering? && s.tasks[task].render == render && s.tasks[task].running
    requires render in s.renders && s.renders[render] == Fulfilled
    requires s.attached && s.open && s.running && !s.timer
    requires if s.tasks[task].caller.Poller? then s.poll == Some(task) else s.tasks[task].caller.Starter? && s.poll.None?
    ensures var s' := Step(s, Accepted(task)); s'.timer && s'.poll.None? && s'.cursor == s.cursor
  {
    var phase := s.tasks[task];
    var s1 := if s.rendering == Some(render) then s.(rendering := None) else s;
    assert Step(s, Accepted(task)) == AfterRendering(s, task, phase.caller, render, true, phase.status);
    assert AfterRendering(s, task, phase.caller, render, true, phase.status) == CallEnds(s1, task, phase.caller, true);
    hide Step, AfterRendering;
  }

  /** If the shell has ended, the notice of its end follows the rendered text at once. */
  lemma ExitIsShown(s: Tab, task: nat, session: Session)
    requires Inv(s) && Believed(s, task) && Conforms(s.log, s.tasks[task].cursor, session) && !session.running && !s.exited
    ensures var s' := Run(s, [Responds(task, session), Settles(s.nextId, Fulfilled), Accepted(task)]);
            && s'.scroll.shown == s.scroll.shown + (if session.truncated then EXPIRED_NOTICE else []) + session.output
                                  + ExitNotice(session.status)
            && s'.exited && !s'.running
  {
    AnswerIsShown(s, task, session);
    AcceptedOnce(s, task, session);
    RunOfThree(s, Responds(task, session), Settles(s.nextId, Fulfilled), Accepted(task));
    var s2 := Step(Step(s, Responds(task, session)), Settles(s.nextId, Fulfilled));
    assert s.tasks[task].caller.Poller? ==> s2.poll == Some(task);
    hide Inv, Run, Believed, Conforms, EXPIRED_NOTICE, ExitNotice;
    EndIsShown(s2, task, s.nextId);
  }

  lemma EndIsShown(s: Tab, task: nat, render: nat)
    requires task in s.tasks && s.tasks[task].Rendering? && s.tasks[task].render == render && !s.tasks[task].running
    requires render in s.renders && s.renders[render] == Fulfilled
    requires s.attached && s.open && !s.exited && (s.tasks[task].caller.Poller? ==> s.poll == Some(task))
    ensures var s' := Step(s, Accepted(task));
            s'.scroll.shown == s.scroll.shown + ExitNotice(s.tasks[task].status) && s'.exited && s'.running == s.running
  {
    hide ExitNotice;
  }

  // ---------------------------------------------------------- where a tab starts

  /** A shell that is listed as dead is read to its end, once its turn has come. */
  lemma DeadTabIsRead(log: JsText, until: nat, status: JsText)
    ensures var s := Run(ListedTab(log, Listing(false, until)), [Adopted, Responds(0, Session(log, |log|, false, false, status))]);
            s.cursor == |log| && s.scroll.shown == log && !s.running
  {
    var s0 := ListedTab(log, Listing(false, until));
    var session := Session(log, |log|, false, false, status);
    InitialHolds(s0);
    StepKeeps(s0, Adopted);
    var s1 := Step(s0, Adopted);
    RunOfTwo(s0, Adopted, Responds(0, session));
    assert log[0..|log|] == log;
    assert s1.tasks == map[0 := AwaitResponse(Lister, 0)];
    assert Conforms(s1.log, 0, session);
    hide Inv, Run, Conforms;
    AnswerIsShown(s1, 0, session);
    assert [] + [] + log == log;
  }

  /** A new tab starts its shell and reads what the first answer brings. */
  lemma NewTabIsRead(log: JsText, status: JsText)
    ensures var s := Run(CreatedTab(log), [Start, Responds(0, Session(log, |log|, false, true, status))]);
            s.cursor == |log| && s.scroll.shown == log && s.running
  {
    var s0 := CreatedTab(log);
    var session := Session(log, |log|, false, true, status);
    InitialHolds(s0);
    StepKeeps(s0, Start);
    var s1 := Step(s0, Start);
    RunOfTwo(s0, Start, Responds(0, session));
    assert log[0..|log|] == log;
    assert s1.tasks == map[0 := AwaitResponse(Starter, 0)];
    assert Conforms(s1.log, 0, session);
    hide Inv, Run, Conforms;
    AnswerIsShown(s1, 0, session);
    assert [] + [] + log == log;
  }

  /** Clearing empties the screen and what is kept of it, and nothing is read again. */
  lemma ClearEmpties(s: Tab)
    ensures var s' := Run(s, [Clear]);
            && s'.scroll.shown == [] && s'.scroll.buffer == []
            && s'.scroll.stream == s.scroll.stream && s'.cursor == s.cursor
  {
    RunOfOne(s, Clear);
  }

  // ---------------------------------------------------------- tabs that are away

  predicate Away(s: Tab) { !s.attached || !s.open }

  predicate SameFlags(s: Tab, s': Tab) { s'.attached == s.attached && s'.open == s.open }

  lemma FailureKeepsFlags(s: Tab, task: nat, caller: Caller, missing: bool)
    ensures SameFlags(s, CallFails(s, task, caller, missing))
  {
  }

  lemma EndKeepsFlags(s: Tab, task: nat, caller: Caller, running: bool)
    ensures SameFlags(s, CallEnds(s, task, caller, running))
  {
  }

  lemma CallsKeepFlags(s: Tab, task: nat, caller: Caller, missing: bool, running: bool)
    ensures SameFlags(s, CallFails(s, task, caller, missing)) && SameFlags(s, CallEnds(s, task, caller, running))
  {
    FailureKeepsFlags(s, task, caller, missing);
    EndKeepsFlags(s, task, caller, running);
    hide CallFails, CallEnds;
  }

  lemma WaitKeepsFlags(s: Tab, task: nat, render: nat)
    ensures SameFlags(s, RendererWaited(s, task, render)) && SameFlags(s, TimerFired(s))
  {
    CallsKeepFlags(s, task, Poller, false, false);
    hide CallFails;
  }

  lemma RenderedKeepsFlags(s: Tab, task: nat, caller: Caller, render: nat, running: bool, status: JsText)
    ensures SameFlags(s, AfterRendering(s, task, caller, render, running, status))
    ensures Away(s) ==> var s' := AfterRendering(s, task, caller, render, running, status); s'.scroll == s.scroll && s'.cursor == s.cursor
  {
    var s1 := if s.rendering == Some(render) then s.(rendering := None) else s;
    CallsKeepFlags(s1, task, caller, false, running);
    CallEndsKeepsData(s1, task, caller, running);
    hide CallEnds, Append;
  }

  lemma AcceptedKeepsFlags(s: Tab, task: nat)
    ensures var s' := Step(s, Accepted(task));
            SameFlags(s, s') && (Away(s) ==> s'.scroll == s.scroll && s'.cursor == s.cursor)
  {
    hide CallFails, AfterRendering;
    if task in s.tasks && s.tasks[task].Rendering? && Settled(s, s.tasks[task].render) {
      var phase := s.tasks[task];
      CallsKeepFlags(s, task, phase.caller, false, false);
      CallFailsKeepsData(s, task, phase.caller, false);
      RenderedKeepsFlags(s, task, phase.caller, phase.render, phase.running, phase.status);
    }
  }

  lemma AcceptKeepsFlags(s: Tab, task: nat, caller: Caller, session: Session)
    ensures SameFlags(s, Accept(s, task, caller, session))
  {
    hide AppendAnswer;
  }

  lemma AnsweredKeepsFlags(s: Tab, task: nat, caller: Caller, session: Session)
    ensures SameFlags(s, Answered(s, task, caller, session))
  {
    AcceptKeepsFlags(s, task, caller, session);
    hide Accept, Live;
  }

  lemma AnswerKeepsFlags(s: Tab, task: nat, session: Session)
    ensures SameFlags(s, Step(s, Responds(task, session)))
  {
    if task in s.tasks && s.tasks[task].AwaitResponse? {
      AnsweredKeepsFlags(s, task, s.tasks[task].caller, session);
    }
    hide Conforms, Answered;
  }

  lemma ScheduleKeepsFlags(s: Tab)
    ensures SameFlags(s, Schedule(s)) && SameFlags(s, StopPoll(s))
  {
  }

  lemma AdoptKeepsFlags(s: Tab, listing: Listing)
    ensures SameFlags(s, Adopt(s, listing)) && Adopt(s, listing).scroll == s.scroll && Adopt(s, listing).cursor == s.cursor
  {
    var s1 := s.(listing := None, replayUntil := listing.replayUntil);
    ScheduleKeepsFlags(s1);
    ScheduleKeepsData(s1);
    hide Schedule;
  }

  lemma UserFlags(s: Tab, e: Event)
    requires e.Attach? || e.Detach? || e.Reconnect? || e.Close? || e.Overwritten? || e.Start?
    ensures var s' := Step(s, e); (s'.attached ==> s.attached || e.Attach?) && (s'.open ==> s.open)
  {
    ScheduleKeepsFlags(s.(attached := true));
    ScheduleKeepsFlags(s.(attached := false));
    ScheduleKeepsFlags(s.(open := false));
    ScheduleKeepsFlags(s);
    ScheduleKeepsFlags(StopPoll(s));
    hide Schedule, StopPoll;
  }

  lemma AwayStep(s: Tab, e: Event)
    requires Away(s) && (!s.open || !e.Attach?)
    ensures var s' := Step(s, e);
            && (!s.open ==> !s'.open) && (!s.attached && !e.Attach? ==> !s'.attached)
            && s'.scroll.stream == s.scroll.stream && s'.cursor == s.cursor
  {
    hide Conforms, Accept, CallFails, CallEnds, RendererWaited, TimerFired, AfterRendering, Adopt, Schedule, StopPoll, Append;
    match e {
      case TimerFires =>
        WaitKeepsFlags(s, 0, 0);
        TimerKeepsData(s);
      case RendererReady(task) =>
        if task in s.tasks && s.tasks[task].AwaitRenderer? {
          WaitKeepsFlags(s, task, s.tasks[task].render);
          RendererWaitedKeepsData(s, task, s.tasks[task].render);
        }
      case Fails(task, missing) =>
        if task in s.tasks && s.tasks[task].AwaitResponse? {
          CallsKeepFlags(s, task, s.tasks[task].caller, missing, false);
          CallFailsKeepsData(s, task, s.tasks[task].caller, missing);
        }
      case ExitShown(task, shown) =>
        if task in s.tasks && s.tasks[task].RenderingExit? {
          CallsKeepFlags(s, task, s.tasks[task].caller, false, false);
          CallFailsKeepsData(s, task, s.tasks[task].caller, false);
          CallEndsKeepsData(s, task, s.tasks[task].caller, false);
        }
      case Responds(task, session) =>
        AnswerKeepsFlags(s, task, session);
        DropKeepsData(s, task);
      case Accepted(task) => AcceptedKeepsFlags(s, task);
      case Clear =>
      case Settles(_, _) =>
      case Emits(_) =>
      case Adopted =>
        if s.listing.Some? {
          AdoptKeepsFlags(s, s.listing.value);
        }
      case _ =>
        UserFlags(s, e);
        UserKeepsData(s, e);
    }
  }

  /** While a tab is detached, nothing is appended and nothing is read, whatever arrives. */
  lemma {:induction false} DetachedIsSilent(s: Tab, events: seq<Event>)
    requires !s.attached && Attach !in events
    ensures Run(s, events).scroll.stream == s.scroll.stream && Run(s, events).cursor == s.cursor
    decreases |events|
  {
    hide Step;
    if events != [] {
      AwayStep(s, events[0]);
      DetachedIsSilent(Step(s, events[0]), events[1..]);
    }
  }

  /** Once a tab is closed, nothing is ever appended or read again. */
  lemma {:induction false} ClosedIsSilent(s: Tab, events: seq<Event>)
    requires !s.open
    ensures Run(s, events).scroll.stream == s.scroll.stream && Run(s, events).cursor == s.cursor
    decreases |events|
  {
    hide Step;
    if events != [] {
      AwayStep(s, events[0]);
      ClosedIsSilent(Step(s, events[0]), events[1..]);
    }
  }

  lemma RunOfMore(s: Tab, e: Event, events: seq<Event>)
    ensures Run(s, [e] + events) == Run(Step(s, e), events)
  {
    RunOfConcat(s, [e], events);
    RunOfOne(s, e);
  }

  /** From a detachment to the next attachment the tab is silent. */
  lemma DetachSilences(s: Tab, events: seq<Event>)
    requires Attach !in events
    ensures var s' := Run(s, [Detach] + events); s'.scroll.stream == s.scroll.stream && s'.cursor == s.cursor
  {
    RunOfMore(s, Detach, events);
    var s1 := Step(s, Detach);
    assert !s1.attached && s1.scroll == s.scroll && s1.cursor == s.cursor;
    hide Run, Step;
    DetachedIsSilent(s1, events);
  }

  /** A tab that its user closes, or that another one takes the place of, is silent for good. */
  lemma ClosingSilences(s: Tab, e: Event, events: seq<Event>)
    requires (e == Close && s.attached) || e == Overwritten
    ensures var s' := Run(s, [e] + events); s'.scroll.stream == s.scroll.stream && s'.cursor == s.cursor
  {
    RunOfMore(s, e, events);
    var s1 := Step(s, e);
    assert !s1.open && s1.scroll == s.scroll && s1.cursor == s.cursor;
    hide Run, Step;
    ClosedIsSilent(s1, events);
  }

  /** Attach, let the timer fire and the renderer finish, read to the end of the log. */
  function Resume(s: Tab): seq<Event>
    requires s.cursor <= |s.log|
  {
    [Attach, TimerFires]
    + (if s.rendering.Some? then [Settles(s.rendering.value, Fulfilled), RendererReady(s.nextId)] else [])
    + [Responds(s.nextId, WholeRest(s))]
  }

  lemma AttachedAsks(s: Tab)
    requires Inv(s) && !s.attached && s.open && s.running
    ensures var s' := Step(Step(s, Attach), TimerFires);
            && SameData(s, s') && Live(s', s.nextId) && s.nextId in s'.tasks
            && s'.tasks[s.nextId] == if s.rendering.Some? then AwaitRenderer(s.rendering.value) else AwaitResponse(Poller, s.cursor)
  {
    assert s.poll.None? && !s.timer;
    hide Inv;
    var s1 := Step(s, Attach);
    assert SameData(s, s1) && s1.attached && s1.open && s1.running && s1.timer && s1.nextId == s.nextId;
    assert Step(s1, TimerFires) == TimerFired(s1);
  }

  /** A tab that is attached again goes on where it was and reads all there is, unless a rendering was rejected. */
  lemma AttachReads(s: Tab)
    requires Inv(s) && !s.attached && s.open && s.running && !Wedged(s)
    ensures s.cursor <= |s.log| && Run(s, Resume(s)).cursor == |s.log|
  {
    var s1 := Step(s, Attach);
    var s2 := Step(s1, TimerFires);
    var answer := Responds(s.nextId, WholeRest(s));
    assert s.cursor <= |s.log|;
    StepKeeps(s, Attach);
    StepKeeps(s1, TimerFires);
    assert Ids(s2);
    AttachedAsks(s);
    assert !Wedged(s2);
    RunOfTwo(s, Attach, TimerFires);
    hide Inv, Ids, Step, Run, Wedged, Live;
    if s.rendering.Some? {
      RendererLetsGo(s2, s.nextId);
      var settled, ready := Settles(s.rendering.value, Fulfilled), RendererReady(s.nextId);
      RunOfTwo(s2, settled, ready);
      var s4 := Run(s2, [settled, ready]);
      AnswerReadsAll(s4, s.nextId, WholeRest(s));
      RunOfOne(s4, answer);
      RunOfConcat(s, [Attach, TimerFires], [settled, ready]);
      RunOfConcat(s, [Attach, TimerFires] + [settled, ready], [answer]);
    } else {
      AnswerReadsAll(s2, s.nextId, WholeRest(s));
      RunOfOne(s2, answer);
      assert [Attach, TimerFires] + [] == [Attach, TimerFires];
      RunOfConcat(s, [Attach, TimerFires], [answer]);
    }
  }

  // ---------------------------------------------------------- polls that fail

  /** A poll that fails is tried again while the shell may live. */
  lemma FailureRetries(s: Tab, task: nat)
    requires Inv(s) && Believed(s, task) && s.tasks[task].caller.Poller? && s.running
    ensures var s' := Step(s, Fails(task, false)); s'.timer && s'.poll.None? && s'.cursor == s.cursor && s'.scroll == s.scroll
  {
  }

  /** The shell is gone and no call is out that could bring it back. */
  ghost predicate Lost(s: Tab) {
    && Inv(s) && s.started && !s.running && s.poll.None? && (s.listing.Some? ==> s.listing.value.alive)
    && (forall t :: !Opening(s, t))
    && (forall t :: t in s.tasks && s.tasks[t].Rendering? && !s.tasks[t].running ==> s.tasks[t].caller.Poller?)
  }

  /** Calls only end, nothing is read, and nothing is asked for. */
  ghost predicate Fades(s: Tab, s': Tab) {
    && s'.started && !s'.running && s'.poll.None? && s'.listing in {s.listing, None}
    && (forall t :: t in s'.tasks ==> t in s.tasks && s'.tasks[t] == s.tasks[t])
    && s'.scroll.stream == s.scroll.stream && s'.cursor == s.cursor
  }

  lemma CallsFade(s: Tab, task: nat, caller: Caller, missing: bool, running: bool)
    requires s.started && !s.running && s.poll.None?
    ensures Fades(s, CallFails(s, task, caller, missing)) && Fades(s, CallEnds(s, task, caller, running))
  {
  }

  lemma UserFades(s: Tab, e: Event)
    requires s.started && !s.running && s.poll.None? && (s.listing.Some? ==> s.listing.value.alive)
    requires !e.RendererReady? && !e.Responds? && !e.Fails? && !e.Accepted? && !e.ExitShown?
    ensures Fades(s, Step(s, e))
  {
  }

  lemma AcceptedFades(s: Tab, task: nat)
    requires s.started && !s.running && s.poll.None?
    requires forall t :: t in s.tasks && s.tasks[t].Rendering? && !s.tasks[t].running ==> s.tasks[t].caller.Poller?
    ensures Fades(s, Step(s, Accepted(task)))
  {
    hide CallFails, CallEnds, Append;
    if task in s.tasks && s.tasks[task].Rendering? && Settled(s, s.tasks[task].render) {
      var phase := s.tasks[task];
      var s1 := if s.rendering == Some(phase.render) then s.(rendering := None) else s;
      CallsFade(s, task, phase.caller, false, phase.running);
      CallsFade(s1, task, phase.caller, false, phase.running);
    }
  }

  lemma WaitFades(s: Tab, task: nat, render: nat)
    requires s.started && !s.running && s.poll.None?
    ensures Fades(s, RendererWaited(s, task, render))
  {
    CallsFade(s, task, Poller, false, false);
    hide CallFails;
  }

  lemma AnswerFades(s: Tab, task: nat, session: Session)
    requires s.started && !s.running && s.poll.None? && !Opening(s, task)
    ensures Fades(s, Step(s, Responds(task, session)))
  {
    hide Accept, Conforms;
  }

  lemma StepFades(s: Tab, e: Event)
    requires Lost(s)
    ensures Fades(s, Step(s, e))
  {
    hide Inv, Fades, Conforms, CallFails, CallEnds, AfterRendering, RendererWaited, TimerFired, Answered, Adopt, Schedule, StopPoll;
    match e {
      case RendererReady(task) =>
        if task in s.tasks && s.tasks[task].AwaitRenderer? {
          WaitFades(s, task, s.tasks[task].render);
        }
        NothingFades(s);
      case Fails(task, missing) =>
        if task in s.tasks && s.tasks[task].AwaitResponse? {
          CallsFade(s, task, s.tasks[task].caller, missing, false);
        }
        NothingFades(s);
      case ExitShown(task, shown) =>
        if task in s.tasks && s.tasks[task].RenderingExit? {
          CallsFade(s, task, s.tasks[task].caller, false, false);
        }
        NothingFades(s);
      case Responds(task, session) =>
        assert !Opening(s, task);
        AnswerFades(s, task, session);
      case Accepted(task) => AcceptedFades(s, task);
      case _ => UserFades(s, e);
    }
  }

  lemma NothingFades(s: Tab)
    requires s.started && !s.running && s.poll.None?
    ensures Fades(s, s)
  {
  }

  lemma LostStep(s: Tab, e: Event)
    requires Lost(s)
    ensures Lost(Step(s, e)) && Fades(s, Step(s, e))
  {
    StepKeeps(s, e);
    StepFades(s, e);
    hide Inv, Step;
    assert forall t :: Opening(Step(s, e), t) ==> Opening(s, t);
  }

  lemma {:induction false} LostIsSilent(s: Tab, events: seq<Event>)
    requires Lost(s)
    ensures Run(s, events).scroll.stream == s.scroll.stream && Run(s, events).cursor == s.cursor && Run(s, events).poll.None?
    decreases |events|
  {
    hide Step, Lost;
    assert s.poll.None? by { LostHasNoPoll(s); }
    if events != [] {
      LostStep(s, events[0]);
      LostIsSilent(Step(s, events[0]), events[1..]);
    }
  }

  lemma LostHasNoPoll(s: Tab)
    requires Lost(s)
    ensures s.poll.None?
  {
  }

  /** A poll that finds the session missing is the last: nothing is asked for, read or appended any more. */
  lemma MissingEndsPolling(s: Tab, task: nat, events: seq<Event>)
    requires Inv(s) && Believed(s, task) && s.tasks[task].caller.Poller?
    ensures var s' := Run(s, [Fails(task, true)] + events);
            s'.scroll.stream == s.scroll.stream && s'.cursor == s.cursor && s'.poll.None?
  {
    RunOfMore(s, Fails(task, true), events);
    MissingLoses(s, task);
    hide Run, Step, Lost, Inv, Believed;
    LostIsSilent(Step(s, Fails(task, true)), events);
  }

  lemma MissingLoses(s: Tab, task: nat)
    requires Inv(s) && Believed(s, task) && s.tasks[task].caller.Poller?
    ensures var s' := Step(s, Fails(task, true)); Lost(s') && s'.scroll == s.scroll && s'.cursor == s.cursor
  {
    StepKeeps(s, Fails(task, true));
    var s' := Step(s, Fails(task, true));
    assert s' == Drop(s, task).(poll := None, running := false);
    hide Step, Faithful, Position, ExitNotices, EndsWithExit, BufferIsTail, Backpressure;
    assert forall t :: t in s'.tasks ==> t in s.tasks && s'.tasks[t] == s.tasks[t];
    assert forall t :: Opening(s', t) ==> Opening(s, t);
    MissingFacts(s, task);
    hide Inv;
  }

  lemma MissingFacts(s: Tab, task: nat)
    requires Inv(s) && Believed(s, task) && s.tasks[task].caller.Poller?
    ensures s.started && (s.listing.Some? ==> s.listing.value.alive) && forall t :: !Opening(s, t)
    ensures forall t :: t in s.tasks && s.tasks[t].Rendering? && !s.tasks[t].running ==> s.tasks[t].caller.Poller?
  {
    hide Faithful, Position, ExitNotices, EndsWithExit, BufferIsTail;
  }
}
