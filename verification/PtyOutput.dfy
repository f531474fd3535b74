/**
 The output side of a PTY tab: polls, cursors, reconnects, stale answers, renderer
 backpressure and the bounded scrollback. Each synchronous stretch of the controller
 between two `await`s is one event; `Step` says what it does to one tab. The runtime
 is an append-only log that answers a poll with what follows the cursor.
 */
module PtyOutput {
  import opened Text
  import opened CodeUnits

  const MAX_PTY_OUTPUT := 512000

  const EXPIRED_NOTICE := Units("\r\n\U{1b}[33m[Sa\U{00ed}da anterior expirou no buffer do runtime]\U{1b}[0m\r\n")

  function ExitNotice(status: JsText): JsText {
    Units("\r\n\U{1b}[90m[Shell encerrado \U{00b7} ") + status + Units("]\U{1b}[0m\r\n")
  }

  /** What the runtime reports about a session; `status` is its exit code or signal. */
  datatype Session = Session(output: JsText, nextCursor: nat, truncated: bool, running: bool, status: JsText)

  /** Who waits for an answer: a poll owned by its abort controller, the creation of the shell, or the one read of a dead session. */
  datatype Caller = Poller | Starter | Lister

  /** Where a suspended call of the controller waits. */
  datatype Phase =
    | AwaitRenderer(render: nat)
    | AwaitResponse(caller: Caller, cursor: nat)
    | Rendering(caller: Caller, render: nat, running: bool, status: JsText)
    | RenderingExit(caller: Caller)

  datatype Outcome = Pending | Fulfilled | Rejected

  /** One `append`, in order; `Skip` records log text that expired before it could be read. */
  datatype Chunk =
    | Output(text: JsText, replay: bool)
    | Expired(skipped: nat)
    | Exited(status: JsText)

  /** Everything appended, what is on screen since the last `clear`, and the part of that still kept. */
  datatype Scroll = Scroll(stream: seq<Chunk>, shown: JsText, buffer: JsText)

  /** What `initialize` will do to a tab of the session list when the tab's turn comes. */
  datatype Listing = Listing(alive: bool, replayUntil: nat)

  datatype Tab = Tab(
    attached: bool, open: bool, running: bool, started: bool, creating: bool,
    listing: Option<Listing>, cursor: nat, replayUntil: nat, timer: bool, poll: Option<nat>, rendering: Option<nat>, exited: bool,
    tasks: map<nat, Phase>, renders: map<nat, Outcome>, nextId: nat,
    scroll: Scroll, log: JsText)

  datatype Event =
    | Attach | Detach | Reconnect(ready: bool) | Close | Overwritten | Start | Clear | Adopted
    | TimerFires
    | RendererReady(task: nat)
    | Responds(task: nat, session: Session)
    | Fails(task: nat, missing: bool)
    | Accepted(task: nat)
    | ExitShown(task: nat, shown: bool)
    | Settles(render: nat, outcome: Outcome)
    | Emits(text: JsText)

  // ---------------------------------------------------------- the controller's stretches

  /** `stopPoll`: cancel the timer and abort the poll that owns the tab. */
  function StopPoll(s: Tab): Tab {
    s.(timer := false, poll := None)
  }

  /** `poll`: schedule the next poll unless one is scheduled or under way. */
  function Schedule(s: Tab): Tab {
    if !s.attached || !s.open || !s.running || s.poll.Some? || s.timer then s else s.(timer := true)
  }

  /** The guard every poll repeats after each `await`. */
  predicate Live(s: Tab, task: nat) {
    s.attached && s.open && s.poll == Some(task)
  }

  function Drop(s: Tab, task: nat): Tab {
    s.(tasks := s.tasks - {task})
  }

  function ChunkText(chunk: Chunk): JsText {
    match chunk
    case Output(text, _) => text
    case Expired(_) => EXPIRED_NOTICE
    case Exited(status) => ExitNotice(status)
  }

  /** `append`: extend the scrollback and keep its last `MAX_PTY_OUTPUT` units. */
  function Append(scroll: Scroll, chunk: Chunk): Scroll {
    Scroll(scroll.stream + [chunk], scroll.shown + ChunkText(chunk), Last(scroll.buffer + ChunkText(chunk), MAX_PTY_OUTPUT))
  }

  function AppendOutput(scroll: Scroll, text: JsText, replay: bool): Scroll {
    if text == [] then scroll else Append(scroll, Output(text, replay))
  }

  /** How much of an answer that starts at `start` was already in the log when the session was listed. */
  function ReplayLength(replayUntil: nat, start: int, output: JsText): nat {
    if replayUntil <= start then 0
    else if replayUntil - start < |output| then replayUntil - start else |output|
  }

  /** The appends of one answer: a notice if text expired, the replayed part, the new part. */
  function AppendAnswer(scroll: Scroll, cursor: nat, replayUntil: nat, session: Session): Scroll {
    var start := session.nextCursor - |session.output|;
    var n := ReplayLength(replayUntil, start, session.output);
    var s1 := if session.truncated then Append(scroll, Expired(if start > cursor then start - cursor else 0)) else scroll;
    AppendOutput(AppendOutput(s1, session.output[..n], true), session.output[n..], false)
  }

  /** `accept` up to its first `await`: claim the cursor and append the whole answer at once. */
  function Accept(s: Tab, task: nat, caller: Caller, session: Session): Tab {
    s.(cursor := session.nextCursor, running := session.running, started := true,
       scroll := AppendAnswer(s.scroll, s.cursor, s.replayUntil, session),
       rendering := Some(s.nextId), renders := s.renders[s.nextId := Pending], nextId := s.nextId + 1,
       tasks := s.tasks[task := Rendering(caller, s.nextId, session.running, session.status)])
  }

  /** The `catch` of a poll, or of a call that does not own the tab. */
  function CallFails(s: Tab, task: nat, caller: Caller, missing: bool): Tab {
    var dropped := Drop(s, task);
    if caller.Lister? then dropped
    else if caller.Starter? then dropped.(creating := false)
    else if !Live(s, task) then dropped
    else if missing then dropped.(poll := None, running := false)
    else Schedule(dropped.(poll := None))
  }

  /** What follows a completed `accept`. */
  function CallEnds(s: Tab, task: nat, caller: Caller, running: bool): Tab {
    var dropped := Drop(s, task);
    match caller
    case Lister => dropped
    case Starter => Schedule(dropped.(creating := false))
    case Poller =>
      if !Live(s, task) then dropped
      else if running then Schedule(dropped.(poll := None))
      else dropped.(poll := None)
  }

  /** The rest of `accept` once its chunks are rendered. */
  function AfterRendering(s: Tab, task: nat, caller: Caller, render: nat, running: bool, status: JsText): Tab {
    var s1 := if s.rendering == Some(render) then s.(rendering := None) else s;
    var current := s.attached && s.open && (caller.Poller? ==> s.poll == Some(task));
    if current && !running && !s.exited
    then s1.(scroll := Append(s.scroll, Exited(status)), exited := true, tasks := s.tasks[task := RenderingExit(caller)])
    else CallEnds(s1, task, caller, running)
  }

  /** The runtime's side of a read from `cursor`: what follows in the log, or from later on if the front expired. */
  predicate Conforms(log: JsText, cursor: nat, session: Session) {
    var start := session.nextCursor - |session.output|;
    && cursor <= start && session.nextCursor <= |log|
    && session.output == log[start..session.nextCursor]
    && (start > cursor ==> session.truncated)
  }

  function TimerFired(s: Tab): Tab {
    var s1 := s.(timer := false);
    if !s.attached || !s.open || !s.running then s1
    else
      s1.(poll := Some(s.nextId), nextId := s.nextId + 1,
          tasks := s.tasks[s.nextId := if s.rendering.Some? then AwaitRenderer(s.rendering.value) else AwaitResponse(Poller, s.cursor)])
  }

  function RendererWaited(s: Tab, task: nat, render: nat): Tab {
    if render in s.renders && s.renders[render] == Rejected then CallFails(s, task, Poller, false)
    else if Live(s, task) then s.(tasks := s.tasks[task := AwaitResponse(Poller, s.cursor)])
    else Drop(s, task)
  }

  function Answered(s: Tab, task: nat, caller: Caller, session: Session): Tab {
    if caller.Poller? then
      if Live(s, task) then Accept(s, task, caller, session) else Drop(s, task)
    else if s.attached && s.open then Accept(s, task, caller, session)
    else if caller.Starter? then Drop(s, task).(creating := false)
    else Drop(s, task)
  }

  /** The tab's turn in `initialize`: mark what was listed as old, then poll a live shell or read a dead one once. */
  function Adopt(s: Tab, listing: Listing): Tab {
    var s1 := s.(listing := None, replayUntil := listing.replayUntil);
    if listing.alive then Schedule(s1)
    else s1.(nextId := s.nextId + 1, tasks := s.tasks[s.nextId := AwaitResponse(Lister, 0)])
  }

  /** One event on one tab; an event that cannot happen in `s` changes nothing. */
  function Step(s: Tab, e: Event): Tab {
    match e
    case Attach => Schedule(s.(attached := true))
    case Detach => StopPoll(s.(attached := false))
    case Reconnect(ready) => if s.attached && ready && s.open && s.running then Schedule(StopPoll(s)) else s
    case Close => if s.attached && s.open then StopPoll(s.(open := false)) else s
    case Overwritten => s.(open := false)
    case Start =>
      if s.started || s.creating || !s.attached || !s.open then s
      else s.(creating := true, nextId := s.nextId + 1, tasks := s.tasks[s.nextId := AwaitResponse(Starter, 0)])
    case Clear => s.(scroll := Scroll(s.scroll.stream, [], []))
    case Adopted => if s.listing.Some? then Adopt(s, s.listing.value) else s
    case TimerFires => if s.timer then TimerFired(s) else s
    case RendererReady(task) =>
      if task in s.tasks && s.tasks[task].AwaitRenderer? && Settled(s, s.tasks[task].render)
      then RendererWaited(s, task, s.tasks[task].render) else s
    case Responds(task, session) =>
      if task in s.tasks && s.tasks[task].AwaitResponse? && Conforms(s.log, s.tasks[task].cursor, session)
      then Answered(s, task, s.tasks[task].caller, session) else s
    case Fails(task, missing) =>
      if task in s.tasks && s.tasks[task].AwaitResponse?
      then CallFails(s, task, s.tasks[task].caller, missing) else s
    case Accepted(task) =>
      if task in s.tasks && s.tasks[task].Rendering? && Settled(s, s.tasks[task].render)
      then
        var phase := s.tasks[task];
        if s.renders[phase.render] == Rejected then CallFails(s, task, phase.caller, false)
        else AfterRendering(s, task, phase.caller, phase.render, phase.running, phase.status)
      else s
    case ExitShown(task, ok) =>
      if task in s.tasks && s.tasks[task].RenderingExit?
      then if ok then CallEnds(s, task, s.tasks[task].caller, false) else CallFails(s, task, s.tasks[task].caller, false)
      else s
    case Settles(render, outcome) =>
      if render in s.renders && s.renders[render].Pending? then s.(renders := s.renders[render := outcome]) else s
    case Emits(text) => s.(log := s.log + text)
  }

  predicate Settled(s: Tab, render: nat) {
    render in s.renders && !s.renders[render].Pending?
  }

  /** A run of the tab: its events in order. */
  function Run(s: Tab, events: seq<Event>): Tab
    decreases |events|
  {
    if events == [] then s else Run(Step(s, events[0]), events[1..])
  }

  // ---------------------------------------------------------- where a tab can begin

  /** `create`: an empty tab that has not asked for its shell yet. */
  function CreatedTab(log: JsText): Tab {
    Tab(true, true, false, false, false, None, 0, 0, false, None, None, false, map[], map[], 0, Scroll([], [], []), log)
  }

  /** `initialize`: a tab of the session list as it is published, before its turn. */
  function ListedTab(log: JsText, listing: Listing): Tab {
    CreatedTab(log).(running := listing.alive, started := true, listing := Some(listing))
  }

  ghost predicate Initial(s: Tab) {
    s == CreatedTab(s.log) || exists listing: Listing :: s == ListedTab(s.log, listing)
  }

  // ---------------------------------------------------------- what the stream must be

  /** The log position after a stream. */
  function Position(stream: seq<Chunk>): nat {
    if stream == [] then 0
    else
      var last := stream[|stream| - 1];
      Position(stream[..|stream| - 1]) +
      match last
      case Output(text, _) => |text|
      case Expired(skipped) => skipped
      case Exited(_) => 0
  }

  /** Every output chunk is the log text at its position, and none is empty. */
  ghost predicate Faithful(stream: seq<Chunk>, log: JsText) {
    stream != [] ==>
      var init, last := stream[..|stream| - 1], stream[|stream| - 1];
      && Faithful(init, log)
      && (last.Output? ==>
            var from := Position(init);
            var to := from + |last.text|;
            last.text != [] && to <= |log| && log[from..to] == last.text)
  }

  /** Every output chunk is tagged as replay exactly when it is text from before `replayUntil`. */
  ghost predicate Tagged(stream: seq<Chunk>, replayUntil: nat) {
    stream != [] ==>
      var init, last := stream[..|stream| - 1], stream[|stream| - 1];
      && Tagged(init, replayUntil)
      && (last.Output? ==> if last.replay then Position(stream) <= replayUntil else replayUntil <= Position(init))
  }

  /** Some output begins before `until` in the log. */
  ghost predicate ShowsOld(stream: seq<Chunk>, until: nat) {
    exists i :: 0 <= i < |stream| && stream[i].Output? && Position(stream[..i]) < until
  }

  /** The session text a stream carries, without notices. */
  function SessionText(stream: seq<Chunk>): JsText {
    if stream == [] then []
    else
      var last := stream[|stream| - 1];
      SessionText(stream[..|stream| - 1]) + if last.Output? then last.text else []
  }

  predicate NothingExpired(stream: seq<Chunk>) {
    forall i :: 0 <= i < |stream| ==> !stream[i].Expired?
  }

  function ExitNotices(stream: seq<Chunk>): nat {
    if stream == [] then 0
    else ExitNotices(stream[..|stream| - 1]) + if stream[|stream| - 1].Exited? then 1 else 0
  }

  predicate EndsWithExit(stream: seq<Chunk>) {
    stream != [] && stream[|stream| - 1].Exited?
  }

  // ---------------------------------------------------------- invariants

  ghost predicate Ids(s: Tab) {
    && (forall t :: t in s.tasks ==> t < s.nextId)
    && (forall r :: r in s.renders ==> r < s.nextId)
    && (s.rendering.Some? ==> s.rendering.value in s.renders)
    && (forall t :: t in s.tasks && s.tasks[t].AwaitRenderer? ==> s.tasks[t].render in s.renders)
    && (forall t :: t in s.tasks && s.tasks[t].Rendering? ==> s.tasks[t].render in s.renders)
  }

  /** What the call that owns the tab is waiting for. */
  ghost function Owner(s: Tab): Option<Phase> {
    if s.poll.Some? && s.poll.value in s.tasks then Some(s.tasks[s.poll.value]) else None
  }

  /** The poll that owns the tab exists, belongs to a poller, and excludes a scheduled one. */
  ghost predicate Ownership(s: Tab) {
    && (s.poll.Some? ==> s.attached && !s.timer && (s.open ==> s.poll.value in s.tasks))
    && (s.timer ==> s.attached)
    && (Owner(s).Some? && !Owner(s).value.AwaitRenderer? ==> Owner(s).value.caller.Poller?)
  }

  /** The call that opens the tab, if it is still out. */
  ghost predicate Opening(s: Tab, t: nat) {
    t in s.tasks && s.tasks[t].AwaitResponse? && !s.tasks[t].caller.Poller?
  }

  /** Nothing was ever accepted. */
  ghost predicate Untouched(s: Tab) {
    s.cursor == 0 && s.scroll.stream == [] && !s.running && !s.timer && s.poll.None? && s.rendering.None? && !s.exited
  }

  /** While the opening call is out, or a dead shell waits for it, there is no other call and nothing was accepted. */
  ghost predicate OpeningIsFirst(s: Tab) {
    && (s.listing.Some? ==> s.started)
    && (s.listing.Some? && !s.listing.value.alive ==> Untouched(s) && s.tasks == map[])
    && (!s.started ==> Untouched(s) && forall t :: t in s.tasks ==> Opening(s, t) && s.tasks[t].caller.Starter?)
    && (forall t :: Opening(s, t) ==>
          && Untouched(s) && s.tasks[t].cursor == 0
          && (forall u :: u in s.tasks ==> u == t)
          && (s.tasks[t].caller.Starter? ==> s.creating && !s.started))
  }

  /** A request that will be believed was sent with the current cursor. */
  ghost predicate CursorCurrent(s: Tab) {
    Owner(s).Some? && Owner(s).value.AwaitResponse? ==> Owner(s).value.cursor == s.cursor
  }

  ghost predicate StreamIsLog(s: Tab) {
    && Position(s.scroll.stream) == s.cursor <= |s.log|
    && Faithful(s.scroll.stream, s.log)
  }

  ghost predicate BufferIsTail(scroll: Scroll) {
    scroll.buffer == Last(scroll.shown, MAX_PTY_OUTPUT)
  }

  /** A call that saw the shell dead finds the tab stopped. */
  ghost predicate EndsOnce(s: Tab) {
    && (s.exited <==> ExitNotices(s.scroll.stream) == 1)
    && ExitNotices(s.scroll.stream) <= 1
    && (s.exited ==> !s.running && !s.timer && s.started && EndsWithExit(s.scroll.stream))
    && (s.exited && Owner(s).Some? ==> Owner(s).value.RenderingExit?)
    && (forall t :: t in s.tasks && s.tasks[t].RenderingExit? ==> s.exited)
    && (Owner(s).Some? && Owner(s).value.Rendering? && !Owner(s).value.running ==> !s.running)
    && (forall t :: t in s.tasks && s.tasks[t].Rendering? && !s.tasks[t].caller.Poller? && !s.tasks[t].running ==>
          !s.running && !s.timer && s.poll.None?)
    && (s.timer ==> !s.exited)
  }

  predicate Done(s: Tab, render: nat) {
    render in s.renders && s.renders[render].Fulfilled?
  }

  /** While a believed request is out, everything accepted has been rendered. */
  ghost predicate Backpressure(s: Tab) {
    && (forall r :: r in s.renders && s.renders[r].Pending? ==> s.rendering == Some(r))
    && (Owner(s).Some? ==>
          var phase := Owner(s).value;
          && (phase.AwaitResponse? ==> s.rendering.None? || Done(s, s.rendering.value))
          && (phase.AwaitRenderer? && s.rendering.Some? ==> s.rendering == Some(phase.render)))
  }

  ghost predicate Inv(s: Tab) {
    && Ids(s) && Ownership(s) && OpeningIsFirst(s) && CursorCurrent(s)
    && StreamIsLog(s) && BufferIsTail(s.scroll) && EndsOnce(s) && Backpressure(s)
  }

  // ---------------------------------------------------------- every step keeps them

  lemma StopPollKeeps(s: Tab)
    requires Inv(s)
    ensures Inv(StopPoll(s))
  {
    hide Faithful, Position, ExitNotices, EndsWithExit, BufferIsTail;
  }

  lemma ScheduleKeeps(s: Tab)
    requires Inv(s)
    ensures Inv(Schedule(s))
  {
    hide Faithful, Position, ExitNotices, EndsWithExit, BufferIsTail;
  }

  lemma AttachKeeps(s: Tab)
    requires Inv(s)
    ensures Inv(s.(attached := true))
  {
    hide Faithful, Position, ExitNotices, EndsWithExit, BufferIsTail;
  }

  lemma DetachKeeps(s: Tab)
    requires Inv(s)
    ensures Inv(StopPoll(s.(attached := false)))
  {
    hide Faithful, Position, ExitNotices, EndsWithExit, BufferIsTail;
  }

  lemma CloseKeeps(s: Tab)
    requires Inv(s)
    ensures Inv(s.(open := false))
  {
    hide Faithful, Position, ExitNotices, EndsWithExit, BufferIsTail;
  }

  lemma ClearKeeps(s: Tab)
    requires Inv(s)
    ensures Inv(s.(scroll := Scroll(s.scroll.stream, [], [])))
  {
    hide Faithful, Position, ExitNotices, EndsWithExit;
  }

  lemma AdoptKeeps(s: Tab)
    requires Inv(s) && s.listing.Some?
    ensures Inv(Adopt(s, s.listing.value))
  {
    var replayUntil := s.listing.value.replayUntil;
    if s.listing.value.alive {
      MarkKeeps(s, replayUntil);
      ScheduleKeeps(s.(listing := None, replayUntil := replayUntil));
      hide Inv, Schedule;
    } else {
      ReadDeadKeeps(s, replayUntil);
      hide Inv;
    }
  }

  lemma MarkKeeps(s: Tab, replayUntil: nat)
    requires Inv(s)
    ensures Inv(s.(listing := None, replayUntil := replayUntil))
  {
    hide Faithful, Position, ExitNotices, EndsWithExit, BufferIsTail;
  }

  lemma ReadDeadKeeps(s: Tab, replayUntil: nat)
    requires Inv(s) && s.listing.Some? && !s.listing.value.alive
    ensures Inv(s.(listing := None, replayUntil := replayUntil, nextId := s.nextId + 1,
                   tasks := s.tasks[s.nextId := AwaitResponse(Lister, 0)]))
  {
    hide Faithful, Position, ExitNotices, EndsWithExit, BufferIsTail;
  }

  lemma StartKeeps(s: Tab)
    requires Inv(s)
    ensures Inv(Step(s, Start))
  {
    hide Faithful, Position, ExitNotices, EndsWithExit, BufferIsTail;
  }

  lemma SettlesKeeps(s: Tab, render: nat, outcome: Outcome)
    requires Inv(s)
    ensures Inv(Step(s, Settles(render, outcome)))
  {
    hide Faithful, Position, ExitNotices, EndsWithExit, BufferIsTail;
  }

  lemma TimerKeeps(s: Tab)
    requires Inv(s) && s.timer
    ensures Inv(TimerFired(s))
  {
    hide Faithful, Position, ExitNotices, EndsWithExit, BufferIsTail;
  }

  /** A call that ends without owning the tab leaves no trace. */
  lemma DropKeeps(s: Tab, task: nat)
    requires Inv(s) && (s.poll == Some(task) ==> !s.open)
    ensures Inv(Drop(s, task))
  {
    hide Faithful, Position, ExitNotices, EndsWithExit, BufferIsTail;
  }

  lemma DropStarterKeeps(s: Tab, task: nat)
    requires Inv(s) && s.poll != Some(task) && task in s.tasks
    requires Opening(s, task) ==> s.tasks[task].caller.Starter?
    ensures Inv(Drop(s, task).(creating := false))
  {
    DropKeeps(s, task);
    var dropped := Drop(s, task);
    assert forall t :: Opening(dropped, t) ==> Opening(s, t) && t != task;
    hide Faithful, Position, ExitNotices, EndsWithExit, BufferIsTail, Drop;
    CreatedKeeps(dropped);
  }

  lemma CreatedKeeps(s: Tab)
    requires Inv(s) && forall t :: Opening(s, t) ==> s.tasks[t].caller.Lister?
    ensures Inv(s.(creating := false))
  {
    hide Faithful, Position, ExitNotices, EndsWithExit, BufferIsTail;
  }

  /** The owner gives the tab up. */
  lemma ReleaseKeeps(s: Tab, task: nat)
    requires Inv(s) && s.poll == Some(task)
    ensures Inv(Drop(s, task).(poll := None))
    ensures s.started ==> Inv(Drop(s, task).(poll := None, running := false))
  {
    hide Faithful, Position, ExitNotices, EndsWithExit, BufferIsTail;
  }

  /** Who made the call, as its phase says; only a poll can own the tab. */
  ghost predicate CalledBy(s: Tab, task: nat, caller: Caller) {
    && task in s.tasks
    && (if s.tasks[task].AwaitRenderer? then caller.Poller? else s.tasks[task].caller == caller)
  }

  lemma CallerOwns(s: Tab, task: nat, caller: Caller)
    requires Inv(s) && CalledBy(s, task, caller)
    ensures s.poll == Some(task) ==> caller.Poller? && s.started && (Live(s, task) || !s.open)
    ensures Opening(s, task) && caller.Starter? ==> s.tasks[task].caller.Starter?
    ensures Opening(s, task) ==> !caller.Poller?
  {
    hide Faithful, Position, ExitNotices, EndsWithExit, BufferIsTail;
  }

  lemma CallFailsKeeps(s: Tab, task: nat, caller: Caller, missing: bool)
    requires Inv(s) && CalledBy(s, task, caller)
    ensures Inv(CallFails(s, task, caller, missing))
  {
    CallerOwns(s, task, caller);
    hide Inv, Opening;
    if caller.Lister? {
      DropKeeps(s, task);
    } else if caller.Starter? {
      DropStarterKeeps(s, task);
    } else if !Live(s, task) {
      DropKeeps(s, task);
    } else {
      ReleaseKeeps(s, task);
      ScheduleKeeps(Drop(s, task).(poll := None));
    }
  }

  lemma CallEndsKeeps(s: Tab, task: nat, caller: Caller, running: bool)
    requires Inv(s) && CalledBy(s, task, caller)
    ensures Inv(CallEnds(s, task, caller, running))
  {
    CallerOwns(s, task, caller);
    hide Inv, Opening;
    match caller {
      case Lister => DropKeeps(s, task);
      case Starter =>
        DropStarterKeeps(s, task);
        ScheduleKeeps(Drop(s, task).(creating := false));
      case Poller =>
        if Live(s, task) {
          ReleaseKeeps(s, task);
          ScheduleKeeps(Drop(s, task).(poll := None));
        } else {
          DropKeeps(s, task);
        }
    }
  }

  lemma RequestKeeps(s: Tab, task: nat)
    requires Inv(s) && Live(s, task) && task in s.tasks && s.tasks[task].AwaitRenderer? && Done(s, s.tasks[task].render)
    ensures Inv(s.(tasks := s.tasks[task := AwaitResponse(Poller, s.cursor)]))
  {
    hide Faithful, Position, ExitNotices, EndsWithExit, BufferIsTail;
  }

  lemma RendererWaitedKeeps(s: Tab, task: nat)
    requires Inv(s) && task in s.tasks && s.tasks[task].AwaitRenderer? && Settled(s, s.tasks[task].render)
    ensures Inv(RendererWaited(s, task, s.tasks[task].render))
  {
    CallerOwns(s, task, Poller);
    hide Inv, Opening;
    if s.renders[s.tasks[task].render] == Rejected {
      CallFailsKeeps(s, task, Poller, false);
    } else if Live(s, task) {
      RequestKeeps(s, task);
    } else {
      DropKeeps(s, task);
    }
  }

  lemma {:induction false} FaithfulInLongerLog(stream: seq<Chunk>, log: JsText, text: JsText)
    requires Faithful(stream, log)
    ensures Faithful(stream, log + text)
    decreases |stream|
  {
    if stream != [] {
      var init, last := stream[..|stream| - 1], stream[|stream| - 1];
      FaithfulInLongerLog(init, log, text);
      if last.Output? {
        var from := Position(init);
        var to := from + |last.text|;
        assert (log + text)[from..to] == log[from..to];
      }
    }
  }

  lemma EmitsKeeps(s: Tab, text: JsText)
    requires Inv(s)
    ensures Inv(s.(log := s.log + text))
  {
    FaithfulInLongerLog(s.scroll.stream, s.log, text);
    hide Faithful, Position, ExitNotices, EndsWithExit, BufferIsTail;
  }

  /** What one `append` does to the stream and the scrollback. */
  lemma AppendFacts(scroll: Scroll, chunk: Chunk, log: JsText)
    ensures var stream := Append(scroll, chunk).stream;
            && Position(stream) == Position(scroll.stream) + Advance(chunk)
            && ExitNotices(stream) == ExitNotices(scroll.stream) + (if chunk.Exited? then 1 else 0)
            && (Faithful(scroll.stream, log) && Fits(log, Position(scroll.stream), chunk) ==> Faithful(stream, log))
            && (EndsWithExit(stream) <==> chunk.Exited?)
    ensures BufferIsTail(scroll) ==> BufferIsTail(Append(scroll, chunk))
  {
    var stream := Append(scroll, chunk).stream;
    assert stream[..|stream| - 1] == scroll.stream;
    LastOfAppended(scroll.shown, ChunkText(chunk), MAX_PTY_OUTPUT);
  }

  function Advance(chunk: Chunk): nat {
    match chunk
    case Output(text, _) => |text|
    case Expired(skipped) => skipped
    case Exited(_) => 0
  }

  /** A chunk that may follow at log position `from`. */
  predicate Fits(log: JsText, from: nat, chunk: Chunk) {
    chunk.Output? ==>
      var to := from + |chunk.text|;
      chunk.text != [] && to <= |log| && log[from..to] == chunk.text
  }

  ghost predicate Scrolled(scroll: Scroll, log: JsText, position: nat, exits: nat) {
    && Position(scroll.stream) == position && Faithful(scroll.stream, log)
    && BufferIsTail(scroll) && ExitNotices(scroll.stream) == exits
  }

  lemma OutputAppended(scroll: Scroll, text: JsText, replay: bool, log: JsText, from: nat, exits: nat)
    requires Scrolled(scroll, log, from, exits)
    requires from + |text| <= |log| && log[from..from + |text|] == text
    ensures Scrolled(AppendOutput(scroll, text, replay), log, from + |text|, exits)
  {
    hide Faithful, Position, ExitNotices, Append, BufferIsTail;
    AppendFacts(scroll, Output(text, replay), log);
  }

  /** An answer that conforms to the contract moves the stream from the old cursor to the new one. */
  lemma AnswerExtendsStream(scroll: Scroll, cursor: nat, log: JsText, replayUntil: nat, session: Session, exits: nat)
    requires Scrolled(scroll, log, cursor, exits) && Conforms(log, cursor, session)
    ensures Scrolled(AppendAnswer(scroll, cursor, replayUntil, session), log, session.nextCursor, exits)
  {
    hide Faithful, Position, ExitNotices, Append, BufferIsTail, AppendOutput;
    var start := session.nextCursor - |session.output|;
    var n := ReplayLength(replayUntil, start, session.output);
    var gap := Expired(if start > cursor then start - cursor else 0);
    AppendFacts(scroll, gap, log);
    var s1 := if session.truncated then Append(scroll, gap) else scroll;
    var replayed, news := session.output[..n], session.output[n..];
    SliceOfSlice(log, start, session.nextCursor, n);
    OutputAppended(s1, replayed, true, log, start, exits);
    OutputAppended(AppendOutput(s1, replayed, true), news, false, log, start + n, exits);
  }

  lemma SliceOfSlice(log: JsText, from: nat, to: nat, n: nat)
    requires from + n <= to <= |log|
    ensures log[from..to][..n] == log[from..from + n] && log[from..to][n..] == log[from + n..to]
  {
  }

  /** Whoever is believed asked with the current cursor. */
  lemma AcceptInContract(s: Tab, task: nat, session: Session)
    requires Inv(s) && task in s.tasks && s.tasks[task].AwaitResponse?
    requires s.attached && s.open && (s.tasks[task].caller.Poller? ==> Live(s, task))
    ensures s.tasks[task].cursor == s.cursor
    requires Conforms(s.log, s.tasks[task].cursor, session)
    ensures session.nextCursor <= |s.log|
  {
    hide Faithful, Position, ExitNotices, EndsWithExit, BufferIsTail;
  }

  lemma AcceptKeepsOwnership(s: Tab, task: nat, session: Session)
    requires Inv(s) && task in s.tasks && s.tasks[task].AwaitResponse?
    requires s.attached && s.open && (s.tasks[task].caller.Poller? ==> Live(s, task))
    ensures var s' := Accept(s, task, s.tasks[task].caller, session);
            Ids(s') && Ownership(s') && OpeningIsFirst(s') && CursorCurrent(s') && Backpressure(s')
  {
    hide Faithful, Position, ExitNotices, AppendAnswer, BufferIsTail, EndsWithExit;
  }

  lemma AcceptKeepsEnd(s: Tab, task: nat, session: Session)
    requires Inv(s) && task in s.tasks && s.tasks[task].AwaitResponse?
    requires s.attached && s.open && (s.tasks[task].caller.Poller? ==> Live(s, task))
    requires ExitNotices(AppendAnswer(s.scroll, s.cursor, s.replayUntil, session).stream) == ExitNotices(s.scroll.stream)
    ensures EndsOnce(Accept(s, task, s.tasks[task].caller, session))
  {
    hide Faithful, Position, ExitNotices, AppendAnswer, BufferIsTail, EndsWithExit;
  }

  lemma AcceptKeeps(s: Tab, task: nat, session: Session)
    requires Inv(s) && task in s.tasks && s.tasks[task].AwaitResponse?
    requires Conforms(s.log, s.tasks[task].cursor, session)
    requires s.attached && s.open && (s.tasks[task].caller.Poller? ==> Live(s, task))
    ensures Inv(Accept(s, task, s.tasks[task].caller, session))
  {
    AcceptInContract(s, task, session);
    AnswerExtendsStream(s.scroll, s.cursor, s.log, s.replayUntil, session, ExitNotices(s.scroll.stream));
    AcceptKeepsOwnership(s, task, session);
    AcceptKeepsEnd(s, task, session);
    hide Faithful, Position, ExitNotices, Conforms, AppendAnswer, BufferIsTail, EndsOnce, Ids, Ownership,
         OpeningIsFirst, CursorCurrent, Backpressure;
  }

  lemma ExitKeeps(s: Tab, task: nat, status: JsText)
    requires Inv(s) && task in s.tasks && s.tasks[task].Rendering? && !s.tasks[task].running && !s.exited
    requires s.attached && s.open && (s.tasks[task].caller.Poller? ==> s.poll == Some(task))
    requires Settled(s, s.tasks[task].render)
    ensures Inv(s.(scroll := Append(s.scroll, Exited(status)), exited := true, tasks := s.tasks[task := RenderingExit(s.tasks[task].caller)]))
  {
    AppendFacts(s.scroll, Exited(status), s.log);
    hide Faithful, Position, ExitNotices, Append, BufferIsTail, EndsWithExit;
  }

  lemma ForgetRenderingKeeps(s: Tab, render: nat)
    requires Inv(s) && Settled(s, render) && s.rendering == Some(render)
    ensures Inv(s.(rendering := None))
  {
    hide Faithful, Position, ExitNotices, EndsWithExit, BufferIsTail;
  }

  lemma AcceptedKeeps(s: Tab, task: nat)
    requires Inv(s) && task in s.tasks && s.tasks[task].Rendering? && Settled(s, s.tasks[task].render)
    ensures Inv(Step(s, Accepted(task)))
  {
    var phase := s.tasks[task];
    CallerOwns(s, task, phase.caller);
    hide Inv, Append;
    if s.renders[phase.render] == Rejected {
      CallFailsKeeps(s, task, phase.caller, false);
    } else {
      var s1 := if s.rendering == Some(phase.render) then s.(rendering := None) else s;
      if s.rendering == Some(phase.render) {
        ForgetRenderingKeeps(s, phase.render);
      }
      var current := s.attached && s.open && (phase.caller.Poller? ==> s.poll == Some(task));
      if current && !phase.running && !s.exited {
        ExitKeeps(s1, task, phase.status);
      } else {
        CallEndsKeeps(s1, task, phase.caller, phase.running);
      }
    }
  }

  /** Every event keeps every invariant. */
  lemma StepKeeps(s: Tab, e: Event)
    requires Inv(s)
    ensures Inv(Step(s, e))
  {
    hide Inv, Accept, AfterRendering, CallFails, CallEnds, TimerFired, RendererWaited, Schedule, Conforms, Adopt;
    match e {
      case Attach =>
        AttachKeeps(s);
        ScheduleKeeps(s.(attached := true));
      case Detach => DetachKeeps(s);
      case Reconnect(ready) =>
        StopPollKeeps(s);
        ScheduleKeeps(StopPoll(s));
      case Close =>
        CloseKeeps(s);
        StopPollKeeps(s.(open := false));
      case Overwritten => CloseKeeps(s);
      case Start => StartKeeps(s);
      case Adopted =>
        if s.listing.Some? {
          AdoptKeeps(s);
        }
      case Clear => ClearKeeps(s);
      case TimerFires =>
        if s.timer {
          TimerKeeps(s);
        }
      case RendererReady(task) =>
        if task in s.tasks && s.tasks[task].AwaitRenderer? && Settled(s, s.tasks[task].render) {
          RendererWaitedKeeps(s, task);
        }
      case Responds(task, session) => RespondsKeeps(s, task, session);
      case Fails(task, missing) =>
        if task in s.tasks && s.tasks[task].AwaitResponse? {
          CallFailsKeeps(s, task, s.tasks[task].caller, missing);
        }
      case Accepted(task) =>
        if task in s.tasks && s.tasks[task].Rendering? && Settled(s, s.tasks[task].render) {
          AcceptedKeeps(s, task);
        }
      case ExitShown(task, shown) =>
        if task in s.tasks && s.tasks[task].RenderingExit? {
          CallEndsKeeps(s, task, s.tasks[task].caller, false);
          CallFailsKeeps(s, task, s.tasks[task].caller, false);
        }
      case Settles(render, outcome) => SettlesKeeps(s, render, outcome);
      case Emits(text) => EmitsKeeps(s, text);
    }
  }

  lemma RespondsKeeps(s: Tab, task: nat, session: Session)
    requires Inv(s)
    ensures Inv(Step(s, Responds(task, session)))
  {
    hide Inv, Accept, Conforms, Opening;
    if task in s.tasks && s.tasks[task].AwaitResponse? && Conforms(s.log, s.tasks[task].cursor, session) {
      var caller := s.tasks[task].caller;
      CallerOwns(s, task, caller);
      if s.attached && s.open && (caller.Poller? ==> Live(s, task)) {
        AcceptKeeps(s, task, session);
      } else if caller.Starter? {
        DropStarterKeeps(s, task);
      } else {
        DropKeeps(s, task);
      }
    }
  }

  lemma InitialHolds(s: Tab)
    requires Initial(s)
    ensures Inv(s)
  {
  }

  lemma {:induction false} RunKeeps(s: Tab, events: seq<Event>)
    requires Inv(s)
    ensures Inv(Run(s, events))
    decreases |events|
  {
    hide Inv, Step;
    if events != [] {
      StepKeeps(s, events[0]);
      RunKeeps(Step(s, events[0]), events[1..]);
    }
  }

  // ---------------------------------------------------------- what a user of the tab can rely on

  lemma {:induction false} FaithfulTextIsPrefix(stream: seq<Chunk>, log: JsText)
    requires Faithful(stream, log) && NothingExpired(stream) && Position(stream) <= |log|
    ensures SessionText(stream) == log[..Position(stream)]
    decreases |stream|
  {
    if stream != [] {
      var init := stream[..|stream| - 1];
      FaithfulTextIsPrefix(init, log);
    }
  }

  /**
   Output protocol. Whatever the interleaving of polls, stale answers, adoption,
   reconnects, detaching, closing and slow or failing renderers: the chunks appended are
   the log in order, nothing twice; without expiry they spell exactly the log up to the
   cursor; the exit notice comes at most once and last; the scrollback is the tail of
   what was shown since the last clear.
   */
  lemma OutputProtocol(s0: Tab, events: seq<Event>)
    requires Initial(s0)
    ensures var s := Run(s0, events);
            && Faithful(s.scroll.stream, s.log)
            && Position(s.scroll.stream) == s.cursor <= |s.log|
            && (NothingExpired(s.scroll.stream) ==> SessionText(s.scroll.stream) == s.log[..s.cursor])
            && ExitNotices(s.scroll.stream) <= 1
            && (ExitNotices(s.scroll.stream) == 1 ==> EndsWithExit(s.scroll.stream) && !s.running)
            && s.scroll.buffer == Last(s.scroll.shown, MAX_PTY_OUTPUT)
  {
    InitialHolds(s0);
    RunKeeps(s0, events);
    var s := Run(s0, events);
    if NothingExpired(s.scroll.stream) {
      FaithfulTextIsPrefix(s.scroll.stream, s.log);
    }
  }

  /** A call whose answer, if it came now, would be believed. */
  ghost predicate Believed(s: Tab, task: nat) {
    task in s.tasks && s.tasks[task].AwaitResponse? && s.attached && s.open && (s.tasks[task].caller.Poller? ==> Live(s, task))
  }

  /**
   At any moment at most one call can still deliver output; while it is out no other poll
   is scheduled, its request carries the current cursor, and the renderer is done with
   everything accepted so far.
   */
  lemma OneBelievedCall(s0: Tab, events: seq<Event>, t: nat, u: nat)
    requires Initial(s0)
    requires Believed(Run(s0, events), t)
    ensures var s := Run(s0, events);
            && (Believed(s, u) ==> t == u)
            && !s.timer
            && s.tasks[t].cursor == s.cursor
            && forall r :: r in s.renders ==> !s.renders[r].Pending?
  {
    InitialHolds(s0);
    RunKeeps(s0, events);
    BelievedFacts(Run(s0, events), t, u);
  }

  lemma BelievedFacts(s: Tab, t: nat, u: nat)
    requires Inv(s) && Believed(s, t)
    ensures Believed(s, u) ==> t == u
    ensures !s.timer && s.tasks[t].cursor == s.cursor
    ensures forall r :: r in s.renders ==> !s.renders[r].Pending?
  {
    hide Faithful, Position, ExitNotices, EndsWithExit, BufferIsTail;
    if s.tasks[t].caller.Poller? {
      assert Owner(s) == Some(s.tasks[t]);
    } else {
      assert Opening(s, t);
    }
    if Believed(s, u) && !s.tasks[u].caller.Poller? {
      assert Opening(s, u);
    }
  }

  // ---------------------------------------------------------- a renderer that rejects

  /** The rendering the tab remembers was rejected. */
  ghost predicate Wedged(s: Tab) {
    s.rendering.Some? && s.rendering.value in s.renders && s.renders[s.rendering.value] == Rejected
  }

  /** Whoever could still be believed is not waiting for an answer. */
  lemma WedgedBelievesNobody(s: Tab, task: nat)
    requires Inv(s) && Wedged(s)
    ensures !Believed(s, task) && (s.listing.Some? ==> s.listing.value.alive)
  {
    hide Faithful, Position, ExitNotices, EndsWithExit, BufferIsTail;
    assert !Opening(s, task);
    assert s.poll == Some(task) && task in s.tasks ==> Owner(s) == Some(s.tasks[task]);
  }

  /** A sink that rejects while anything accepted is rendered wedges the tab, whichever call accepted it. */
  lemma RejectionWedges(s: Tab, render: nat)
    requires Inv(s) && render in s.renders && s.renders[render].Pending?
    ensures s.rendering == Some(render) && Wedged(Step(s, Settles(render, Rejected)))
  {
    hide Faithful, Position, ExitNotices, EndsWithExit, BufferIsTail;
  }

  /** The same cursor, renderings and scrollback; and a poll that was not there before is a new one. */
  predicate SameData(s: Tab, s': Tab) {
    && s'.poll in {s.poll, None, Some(s.nextId)} && s'.nextId >= s.nextId
    && s'.cursor == s.cursor && s'.listing == s.listing && s'.replayUntil == s.replayUntil && s'.log == s.log
    && s'.rendering == s.rendering && s'.renders == s.renders && s'.scroll == s.scroll
  }

  lemma DropKeepsData(s: Tab, task: nat)
    ensures var s' := Drop(s, task);
            && s' == s.(tasks := s'.tasks) && SameData(s, s') && SameData(s, s'.(creating := false))
            && SameData(s, s'.(poll := None)) && SameData(s, s'.(poll := None, running := false))
  {
  }

  lemma ScheduleKeepsData(s: Tab)
    ensures SameData(s, Schedule(s)) && Schedule(s).(timer := s.timer) == s
  {
  }

  lemma CallFailsKeepsData(s: Tab, task: nat, caller: Caller, missing: bool)
    ensures SameData(s, CallFails(s, task, caller, missing))
  {
    DropKeepsData(s, task);
    ScheduleKeepsData(Drop(s, task).(poll := None));
    hide Drop, Schedule, Live;
  }

  lemma CallEndsKeepsData(s: Tab, task: nat, caller: Caller, running: bool)
    ensures SameData(s, CallEnds(s, task, caller, running))
  {
    DropKeepsData(s, task);
    ScheduleKeepsData(Drop(s, task).(poll := None));
    ScheduleKeepsData(Drop(s, task).(creating := false));
    hide Drop, Schedule, Live;
  }

  lemma RendererWaitedKeepsData(s: Tab, task: nat, render: nat)
    ensures SameData(s, RendererWaited(s, task, render))
  {
    CallFailsKeepsData(s, task, Poller, false);
    DropKeepsData(s, task);
    hide Drop, CallFails, Live;
  }

  lemma TimerKeepsData(s: Tab)
    ensures SameData(s, TimerFired(s))
  {
  }

  lemma UserKeepsData(s: Tab, e: Event)
    requires e.Attach? || e.Detach? || e.Reconnect? || e.Close? || e.Overwritten? || e.Start?
    ensures SameData(s, Step(s, e))
  {
    ScheduleKeepsData(s.(attached := true));
    ScheduleKeepsData(StopPoll(s));
    hide Schedule;
  }

  /** An event that neither accepts an answer, ends a rendering, adopts the tab nor comes from outside. */
  ghost predicate Quiet(s: Tab, e: Event) {
    && !e.Accepted? && !e.Adopted? && !e.Clear? && !e.Settles? && !e.Emits?
    && (e.Responds? ==> !Believed(s, e.task))
  }

  lemma QuietKeepsData(s: Tab, e: Event)
    requires Quiet(s, e)
    ensures SameData(s, Step(s, e))
  {
    hide CallFails, CallEnds, Conforms, Accept, TimerFired, RendererWaited, Schedule, StopPoll, Drop;
    match e {
      case TimerFires => TimerKeepsData(s);
      case RendererReady(task) =>
        if task in s.tasks && s.tasks[task].AwaitRenderer? {
          RendererWaitedKeepsData(s, task, s.tasks[task].render);
        }
      case Fails(task, missing) =>
        if task in s.tasks && s.tasks[task].AwaitResponse? {
          CallFailsKeepsData(s, task, s.tasks[task].caller, missing);
        }
      case ExitShown(task, shown) =>
        if task in s.tasks && s.tasks[task].RenderingExit? {
          CallFailsKeepsData(s, task, s.tasks[task].caller, false);
          CallEndsKeepsData(s, task, s.tasks[task].caller, false);
        }
      case Responds(task, session) => DropKeepsData(s, task);
      case _ => UserKeepsData(s, e);
    }
  }

  /** The end of a rendering may forget it, unless it was rejected, and may add the exit notice. */
  ghost predicate RenderingEnded(s: Tab, s': Tab) {
    && SameData(s, s'.(rendering := s.rendering, scroll := s.scroll))
    && (s'.rendering == s.rendering || !Wedged(s))
    && (s'.scroll == s.scroll || exists status :: s'.scroll == Append(s.scroll, Exited(status)))
  }

  lemma AfterRenderingData(s: Tab, task: nat, caller: Caller, render: nat, running: bool, status: JsText)
    requires Settled(s, render) && s.renders[render] != Rejected
    ensures RenderingEnded(s, AfterRendering(s, task, caller, render, running, status))
  {
    var s1 := if s.rendering == Some(render) then s.(rendering := None) else s;
    CallEndsKeepsData(s1, task, caller, running);
    hide CallEnds, Append;
  }

  lemma AcceptedData(s: Tab, task: nat)
    ensures RenderingEnded(s, Step(s, Accepted(task)))
  {
    hide CallFails, AfterRendering;
    if task in s.tasks && s.tasks[task].Rendering? && Settled(s, s.tasks[task].render) {
      var phase := s.tasks[task];
      if s.renders[phase.render] == Rejected {
        CallFailsKeepsData(s, task, phase.caller, false);
      } else {
        AfterRenderingData(s, task, phase.caller, phase.render, phase.running, phase.status);
      }
    }
  }

  lemma WedgedStep(s: Tab, e: Event)
    requires Inv(s) && Wedged(s)
    ensures Wedged(Step(s, e)) && Step(s, e).cursor == s.cursor
  {
    if e.Responds? {
      WedgedBelievesNobody(s, e.task);
    }
    if e.Accepted? {
      AcceptedData(s, e.task);
    } else if Quiet(s, e) {
      QuietKeepsData(s, e);
    } else if e.Adopted? {
      WedgedBelievesNobody(s, 0);
    } else {
      assert e.Clear? || e.Settles? || e.Emits?;
    }
    hide Inv, Believed;
    if Quiet(s, e) || e.Accepted? {
      hide Step, Quiet;
    }
  }

  lemma AcceptKeepsPoll(s: Tab, task: nat, caller: Caller, session: Session)
    ensures Accept(s, task, caller, session).poll == s.poll && Accept(s, task, caller, session).nextId == s.nextId + 1
  {
    hide AppendAnswer;
  }

  lemma AdoptKeepsPoll(s: Tab, listing: Listing)
    ensures Adopt(s, listing).poll == s.poll && Adopt(s, listing).nextId >= s.nextId
  {
    ScheduleKeepsData(s.(listing := None, replayUntil := listing.replayUntil));
    hide Schedule;
  }

  lemma BelievedKeepsPoll(s: Tab, task: nat, session: Session)
    requires Believed(s, task)
    ensures var s' := Step(s, Responds(task, session)); s'.poll == s.poll && s'.nextId >= s.nextId
  {
    AcceptKeepsPoll(s, task, s.tasks[task].caller, session);
    hide Accept, Conforms;
  }

  /** Who has lost the tab does not get it back. */
  lemma LostStaysLost(s: Tab, e: Event, task: nat)
    requires s.poll != Some(task) && task < s.nextId
    ensures Step(s, e).poll != Some(task) && task < Step(s, e).nextId
  {
    if e.Accepted? {
      AcceptedData(s, e.task);
      hide Step;
    } else if Quiet(s, e) {
      QuietKeepsData(s, e);
      hide Step, Quiet;
    } else if e.Responds? {
      BelievedKeepsPoll(s, e.task, e.session);
      hide Step, Quiet, Believed;
    } else if e.Adopted? && s.listing.Some? {
      AdoptKeepsPoll(s, s.listing.value);
      hide Adopt;
    }
  }

  /**
   An aborted poll is never heard again: whatever happens after another poll, a reconnect
   or a detach took the tab from it, its answer changes nothing a user can see, and so does
   its failure.
   */
  lemma {:induction false} AbortedNeverHeard(s: Tab, task: nat, events: seq<Event>, session: Session, missing: bool)
    requires Inv(s) && s.poll != Some(task) && task in s.tasks
    ensures var s' := Run(s, events);
            task in s'.tasks && s'.tasks[task].AwaitResponse? && s'.tasks[task].caller.Poller? ==>
              && Step(s', Responds(task, session)) in {s', Drop(s', task)}
              && Step(s', Fails(task, missing)) == Drop(s', task)
  {
    assert task < s.nextId;
    hide Inv;
    RunStaysLost(s, events, task);
    hide Run, Conforms, Accept, Schedule;
  }

  lemma {:induction false} RunStaysLost(s: Tab, events: seq<Event>, task: nat)
    requires s.poll != Some(task) && task < s.nextId
    ensures Run(s, events).poll != Some(task)
    decreases |events|
  {
    hide Step;
    if events != [] {
      LostStaysLost(s, events[0], task);
      RunStaysLost(Step(s, events[0]), events[1..], task);
    }
  }

  /**
   The promise of a failed rendering is never cleared, so from then on every poll fails
   while waiting for it: no run of any events ever accepts another answer.
   */
  lemma {:induction false} WedgedForever(s: Tab, events: seq<Event>)
    requires Inv(s) && Wedged(s)
    ensures Wedged(Run(s, events)) && Run(s, events).cursor == s.cursor
    decreases |events|
  {
    hide Inv, Wedged, Step;
    if events != [] {
      StepKeeps(s, events[0]);
      WedgedStep(s, events[0]);
      WedgedForever(Step(s, events[0]), events[1..]);
    }
  }

  /** The answer that catches up with the whole log. */
  function WholeRest(s: Tab): Session
    requires s.cursor <= |s.log|
  {
    Session(s.log[s.cursor..], |s.log|, false, true, [])
  }

  /** Replace the poll, let the renderer finish, read to the end of the log. */
  function CatchUp(s: Tab): seq<Event>
    requires s.cursor <= |s.log|
  {
    [Reconnect(true), TimerFires]
    + (if s.rendering.Some? then [Settles(s.rendering.value, Fulfilled), RendererReady(s.nextId)] else [])
    + [Responds(s.nextId, WholeRest(s))]
  }

  lemma {:induction false} RunOfConcat(s: Tab, first: seq<Event>, second: seq<Event>)
    ensures Run(s, first + second) == Run(Run(s, first), second)
    decreases |first|
  {
    hide Step;
    if first == [] {
      assert first + second == second;
    } else {
      assert (first + second)[0] == first[0] && (first + second)[1..] == first[1..] + second;
      RunOfConcat(Step(s, first[0]), first[1..], second);
    }
  }

  lemma RunOfTwo(s: Tab, e: Event, f: Event)
    ensures Run(s, [e, f]) == Step(Step(s, e), f)
  {
    hide Step;
    assert [e, f][1..] == [f] && [f][1..] == [];
    assert Run(Step(s, e), [f]) == Step(Step(s, e), f);
  }

  lemma RunOfOne(s: Tab, e: Event)
    ensures Run(s, [e]) == Step(s, e)
  {
    hide Step;
    assert [e][1..] == [];
  }

  /** A replaced poll asks for the rest, or waits for what is being rendered first. */
  lemma PollReplaced(s: Tab)
    requires Inv(s) && s.attached && s.open && s.running
    ensures var s' := Step(Step(s, Reconnect(true)), TimerFires);
            && SameData(s, s') && Live(s', s.nextId) && s.nextId in s'.tasks
            && s'.tasks[s.nextId] == if s.rendering.Some? then AwaitRenderer(s.rendering.value) else AwaitResponse(Poller, s.cursor)
  {
    hide Inv;
    var s1 := Step(s, Reconnect(true));
    assert SameData(s, s1) && s1.attached && s1.open && s1.running && s1.timer && s1.nextId == s.nextId;
    assert Step(s1, TimerFires) == TimerFired(s1);
  }

  /** Once the renderer is done the poll that waits for it asks for the rest. */
  lemma RendererLetsGo(s: Tab, task: nat)
    requires Ids(s) && Live(s, task) && task in s.tasks && s.rendering.Some? && !Wedged(s)
    requires s.tasks[task] == AwaitRenderer(s.rendering.value)
    ensures var s' := Step(Step(s, Settles(s.rendering.value, Fulfilled)), RendererReady(task));
            && s'.cursor == s.cursor && s'.log == s.log && Live(s', task)
            && task in s'.tasks && s'.tasks[task] == AwaitResponse(Poller, s.cursor)
  {
    var s1 := s.(renders := s.renders[s.rendering.value := Fulfilled]);
    assert Step(s, Settles(s.rendering.value, Fulfilled)) == s1 by {
      assert !s.renders[s.rendering.value].Pending? ==> s1.renders == s.renders;
    }
    assert Step(s1, RendererReady(task)) == RendererWaited(s1, task, s.rendering.value);
    hide Step;
  }

  lemma AnswerReadsAll(s: Tab, task: nat, session: Session)
    requires Live(s, task) && task in s.tasks && s.tasks[task] == AwaitResponse(Poller, s.cursor)
    requires s.cursor <= |s.log| && session == Session(s.log[s.cursor..], |s.log|, false, true, [])
    ensures Step(s, Responds(task, session)).cursor == |s.log|
  {
    assert Conforms(s.log, s.cursor, session);
    hide Conforms, AppendAnswer;
  }

  lemma CatchUpAdvances(s: Tab)
    requires Inv(s) && s.attached && s.open && s.running && !Wedged(s)
    ensures Run(s, CatchUp(s)).cursor == |s.log|
  {
    var s1 := Step(s, Reconnect(true));
    var s2 := Step(s1, TimerFires);
    var answer := Responds(s.nextId, WholeRest(s));
    assert s.cursor <= |s.log|;
    StepKeeps(s, Reconnect(true));
    StepKeeps(s1, TimerFires);
    assert Ids(s2);
    PollReplaced(s);
    assert !Wedged(s2);
    RunOfTwo(s, Reconnect(true), TimerFires);
    hide Inv, Ids, Step, Run, Wedged, Live;
    if s.rendering.Some? {
      RendererLetsGo(s2, s.nextId);
      var settled, ready := Settles(s.rendering.value, Fulfilled), RendererReady(s.nextId);
      RunOfTwo(s2, settled, ready);
      var s4 := Run(s2, [settled, ready]);
      AnswerReadsAll(s4, s.nextId, WholeRest(s));
      RunOfOne(s4, answer);
      RunOfConcat(s, [Reconnect(true), TimerFires], [settled, ready]);
      RunOfConcat(s, [Reconnect(true), TimerFires] + [settled, ready], [answer]);
    } else {
      AnswerReadsAll(s2, s.nextId, WholeRest(s));
      RunOfOne(s2, answer);
      assert [Reconnect(true), TimerFires] + [] == [Reconnect(true), TimerFires];
      RunOfConcat(s, [Reconnect(true), TimerFires], [answer]);
    }
  }

  /**
   Exactly when output can go on. In any reachable tab that is attached, open and running
   with log text still unread, some continuation moves the cursor if and only if the
   remembered rendering was not rejected; and then one reads the whole log.
   */
  lemma OutputCanGoOnIff(s0: Tab, events: seq<Event>)
    requires Initial(s0)
    ensures var s := Run(s0, events);
            s.attached && s.open && s.running && s.cursor < |s.log| ==>
              && ((exists more: seq<Event> :: Run(s, more).cursor != s.cursor) <==> !Wedged(s))
              && (!Wedged(s) ==> exists more: seq<Event> :: Run(s, more).cursor == |s.log|)
  {
    InitialHolds(s0);
    RunKeeps(s0, events);
    var s := Run(s0, events);
    hide Step, Wedged, Run, CatchUp;
    if s.attached && s.open && s.running && s.cursor < |s.log| {
      if Wedged(s) {
        forall more: seq<Event> ensures Run(s, more).cursor == s.cursor {
          WedgedForever(s, more);
        }
      } else {
        CatchUpAdvances(s);
        var more := CatchUp(s);
        assert Run(s, more).cursor == |s.log|;
      }
    }
  }

  lemma FirstOutput(log: JsText)
    requires log != []
    ensures var session := Session(log[..1], 1, false, true, []);
            var s := Step(Step(CreatedTab(log), Start), Responds(0, session));
            && Inv(s) && s.attached && s.open && s.running && s.cursor == 1 && s.log == log
            && 1 in s.renders && s.renders[1].Pending?
  {
    var s0 := CreatedTab(log);
    var session := Session(log[..1], 1, false, true, []);
    var s1 := Step(s0, Start);
    InitialHolds(s0);
    StepKeeps(s0, Start);
    StepKeeps(s1, Responds(0, session));
    assert Conforms(log, 0, session);
    hide Inv, Conforms, AppendAnswer;
    assert s1.tasks == map[0 := AwaitResponse(Starter, 0)] && s1.nextId == 1 && s1.attached && s1.open && s1.log == log;
    assert Step(s1, Responds(0, session)) == Accept(s1, 0, Starter, session);
  }

  /** A new shell whose first output a sink rejects: of any longer log nothing more is ever read. */
  lemma RejectedFirstOutput(log: JsText, more: seq<Event>)
    requires |log| > 1
    ensures var session := Session(log[..1], 1, false, true, []);
            var s := Run(CreatedTab(log), [Start, Responds(0, session), Settles(1, Rejected)]);
            && s.attached && s.open && s.running && s.cursor == 1 < |s.log|
            && Run(s, more).cursor == 1
  {
    var session := Session(log[..1], 1, false, true, []);
    var s2 := Step(Step(CreatedTab(log), Start), Responds(0, session));
    var s3 := Step(s2, Settles(1, Rejected));
    FirstOutput(log);
    RejectionWedges(s2, 1);
    StepKeeps(s2, Settles(1, Rejected));
    RunOfThree(CreatedTab(log), Start, Responds(0, session), Settles(1, Rejected));
    assert s3 == s2.(renders := s3.renders);
    hide Inv, Step, Wedged, Run;
    WedgedForever(s3, more);
  }

  lemma RunOfThree(s: Tab, e: Event, f: Event, g: Event)
    ensures Run(s, [e, f, g]) == Step(Step(Step(s, e), f), g)
  {
    hide Step;
    RunOfConcat(s, [e, f], [g]);
    RunOfTwo(s, e, f);
    RunOfOne(Step(Step(s, e), f), g);
    assert [e, f] + [g] == [e, f, g];
  }

  // ---------------------------------------------------------- replayed text

  /** Nothing is tagged as replay before the tab's turn in `initialize`. */
  ghost predicate NoReplay(stream: seq<Chunk>) {
    forall i :: 0 <= i < |stream| && stream[i].Output? ==> !stream[i].replay
  }

  lemma {:induction false} TaggedIffNoneOld(stream: seq<Chunk>, until: nat)
    requires NoReplay(stream)
    ensures Tagged(stream, until) <==> !ShowsOld(stream, until)
    decreases |stream|
  {
    if stream != [] {
      var n := |stream| - 1;
      var init := stream[..n];
      TaggedIffNoneOld(init, until);
      forall i | 0 <= i < n ensures init[..i] == stream[..i] && init[i] == stream[i] {
      }
      if ShowsOld(init, until) {
        var i :| 0 <= i < n && init[i].Output? && Position(init[..i]) < until;
        assert stream[i].Output? && Position(stream[..i]) < until;
      }
      if ShowsOld(stream, until) {
        var i :| 0 <= i < |stream| && stream[i].Output? && Position(stream[..i]) < until;
        assert i < n ==> init[i] == stream[i] && init[..i] == stream[..i];
      }
    }
  }

  /** A chunk whose tag is right at log position `from`. */
  predicate TagFits(chunk: Chunk, from: nat, until: nat) {
    chunk.Output? ==> if chunk.replay then from + |chunk.text| <= until else until <= from
  }

  /** Appending what is tagged right leaves the tags of the stream right or wrong, as they were. */
  lemma TagAppended(scroll: Scroll, chunk: Chunk, until: nat)
    requires TagFits(chunk, Position(scroll.stream), until)
    ensures var stream := Append(scroll, chunk).stream;
            && Position(stream) == Position(scroll.stream) + Advance(chunk)
            && (Tagged(stream, until) <==> Tagged(scroll.stream, until))
            && (NoReplay(scroll.stream) && (chunk.Output? ==> !chunk.replay) ==> NoReplay(stream))
  {
    var stream := Append(scroll, chunk).stream;
    assert stream[..|stream| - 1] == scroll.stream;
  }

  lemma OutputTagged(scroll: Scroll, text: JsText, replay: bool, until: nat)
    requires text != [] ==> TagFits(Output(text, replay), Position(scroll.stream), until)
    ensures var stream := AppendOutput(scroll, text, replay).stream;
            && Position(stream) == Position(scroll.stream) + |text|
            && (Tagged(stream, until) <==> Tagged(scroll.stream, until))
            && (NoReplay(scroll.stream) && (text == [] || !replay) ==> NoReplay(stream))
  {
    if text != [] {
      TagAppended(scroll, Output(text, replay), until);
    }
    hide Tagged, Position, NoReplay, Append;
  }

  lemma AnswerTagged(scroll: Scroll, cursor: nat, log: JsText, until: nat, session: Session)
    requires Position(scroll.stream) == cursor && Conforms(log, cursor, session)
    ensures var stream := AppendAnswer(scroll, cursor, until, session).stream;
            && (Tagged(stream, until) <==> Tagged(scroll.stream, until))
            && (until == 0 && NoReplay(scroll.stream) ==> NoReplay(stream))
  {
    hide Tagged, Position, NoReplay, Append, AppendOutput;
    var start := session.nextCursor - |session.output|;
    var n := ReplayLength(until, start, session.output);
    var gap := Expired(if start > cursor then start - cursor else 0);
    var s1 := if session.truncated then Append(scroll, gap) else scroll;
    var replayed, news := session.output[..n], session.output[n..];
    TagAppended(scroll, gap, until);
    assert Position(s1.stream) == start;
    assert replayed != [] ==> TagFits(Output(replayed, true), start, until);
    assert news != [] ==> TagFits(Output(news, false), start + n, until);
    assert until == 0 ==> replayed == [];
    OutputTagged(s1, replayed, true, until);
    OutputTagged(AppendOutput(s1, replayed, true), news, false, until);
  }

  lemma BelievedAnswerTagged(s: Tab, task: nat, session: Session)
    requires Inv(s) && Believed(s, task)
    ensures var s' := Step(s, Responds(task, session));
            && s'.listing == s.listing && s'.replayUntil == s.replayUntil
            && (Tagged(s'.scroll.stream, s.replayUntil) <==> Tagged(s.scroll.stream, s.replayUntil))
            && (s.replayUntil == 0 && NoReplay(s.scroll.stream) ==> NoReplay(s'.scroll.stream))
  {
    hide Faithful, Position, Tagged, NoReplay, AppendAnswer, ExitNotices, EndsWithExit, BufferIsTail, EndsOnce, Backpressure;
    if Conforms(s.log, s.tasks[task].cursor, session) {
      AcceptInContract(s, task, session);
      AnswerTagged(s.scroll, s.cursor, s.log, s.replayUntil, session);
    }
    hide Inv, Conforms;
  }

  /** No event but adoption changes whether the tags are right. */
  lemma TagsKept(s: Tab, e: Event)
    requires Inv(s) && (e.Adopted? ==> s.listing.None?)
    ensures var s' := Step(s, e);
            && s'.listing == s.listing && s'.replayUntil == s.replayUntil
            && (Tagged(s'.scroll.stream, s.replayUntil) <==> Tagged(s.scroll.stream, s.replayUntil))
            && (s.replayUntil == 0 && NoReplay(s.scroll.stream) ==> NoReplay(s'.scroll.stream))
  {
    if e.Responds? && Believed(s, e.task) {
      BelievedAnswerTagged(s, e.task, e.session);
      hide Inv, Step, Tagged, NoReplay;
    } else if Quiet(s, e) {
      QuietKeepsData(s, e);
      hide Inv, Step, Quiet, Tagged;
    } else if e.Accepted? {
      AcceptedData(s, e.task);
      hide Step, Inv, Tagged, Append;
      var s' := Step(s, e);
      if s'.scroll != s.scroll {
        var status :| s'.scroll == Append(s.scroll, Exited(status));
        TagAppended(s.scroll, Exited(status), s.replayUntil);
      }
    } else {
      hide Inv, Tagged, Conforms;
    }
  }

  lemma {:induction false} RunKeepsTags(s: Tab, events: seq<Event>)
    requires Inv(s) && (s.listing.None? || Adopted !in events)
    ensures var s' := Run(s, events);
            && s'.listing == s.listing && s'.replayUntil == s.replayUntil
            && (Tagged(s'.scroll.stream, s.replayUntil) <==> Tagged(s.scroll.stream, s.replayUntil))
            && (s.replayUntil == 0 && NoReplay(s.scroll.stream) ==> NoReplay(s'.scroll.stream))
    decreases |events|
  {
    hide Inv, Step, Tagged, NoReplay;
    if events != [] {
      StepKeeps(s, events[0]);
      TagsKept(s, events[0]);
      RunKeepsTags(Step(s, events[0]), events[1..]);
    }
  }

  lemma {:induction false} ShowsOldFromStart(stream: seq<Chunk>, log: JsText, until: nat)
    requires NothingExpired(stream) && Faithful(stream, log)
    ensures ShowsOld(stream, until) <==> Position(stream) > 0 && until > 0
    decreases |stream|
  {
    if stream != [] {
      var n := |stream| - 1;
      var init := stream[..n];
      ShowsOldFromStart(init, log, until);
      assert forall i :: 0 <= i < n ==> init[..i] == stream[..i] && init[i] == stream[i];
      if ShowsOld(init, until) {
        var i :| 0 <= i < n && init[i].Output? && Position(init[..i]) < until;
        assert stream[i].Output? && Position(stream[..i]) < until;
      }
      if ShowsOld(stream, until) {
        var i :| 0 <= i < |stream| && stream[i].Output? && Position(stream[..i]) < until;
        assert i < n ==> init[i] == stream[i] && init[..i] == stream[..i];
      }
    }
  }

  /**
   Replay tagging. A listed tab is marked with the length the log had when it was listed
   in its turn of `initialize`, which may come after its polls have begun. Over every run
   before and after that turn, the output is tagged as replay exactly where it lies before
   the mark if and only if no output from before the mark was shown before the turn;
   when nothing had expired that means that nothing, or nothing old, was there to read.
   */
  lemma ReplayTaggingIff(log: JsText, listing: Listing, before: seq<Event>, after: seq<Event>)
    requires Adopted !in before
    ensures var s1 := Run(ListedTab(log, listing), before);
            var s := Run(s1, [Adopted] + after);
            && s.replayUntil == listing.replayUntil
            && (Tagged(s.scroll.stream, listing.replayUntil) <==> !ShowsOld(s1.scroll.stream, listing.replayUntil))
            && (NothingExpired(s1.scroll.stream) ==>
                  (ShowsOld(s1.scroll.stream, listing.replayUntil) <==> s1.cursor > 0 && listing.replayUntil > 0))
            && (!listing.alive ==> s1.scroll.stream == [])
  {
    var s0 := ListedTab(log, listing);
    var s1 := Run(s0, before);
    var s2 := Step(s1, Adopted);
    InitialHolds(s0);
    RunKeeps(s0, before);
    RunKeepsTags(s0, before);
    assert NoReplay(s1.scroll.stream) && s1.listing == Some(listing);
    StepKeeps(s1, Adopted);
    TaggedIffNoneOld(s1.scroll.stream, listing.replayUntil);
    AdoptedMarks(s1);
    hide *;
    RunKeepsTags(s2, after);
    RunOfConcat(s1, [Adopted], after);
    RunOfOne(s1, Adopted);
  }

  lemma AdoptedMarks(s: Tab)
    requires Inv(s) && s.listing.Some?
    ensures var s' := Step(s, Adopted);
            s'.listing.None? && s'.replayUntil == s.listing.value.replayUntil && s'.scroll == s.scroll
    ensures !s.listing.value.alive ==> s.scroll.stream == []
    ensures NothingExpired(s.scroll.stream) ==>
              forall until: nat :: ShowsOld(s.scroll.stream, until) <==> s.cursor > 0 && until > 0
  {
    if NothingExpired(s.scroll.stream) {
      forall until: nat ensures ShowsOld(s.scroll.stream, until) <==> s.cursor > 0 && until > 0 {
        ShowsOldFromStart(s.scroll.stream, s.log, until);
      }
    }
    hide Faithful, Position, ShowsOld, NothingExpired;
  }

  /** A live shell whose whole log is read after a reconnect but before the tab's turn: its old text stays tagged as new. */
  lemma LateTurn(log: JsText, replayUntil: nat)
    requires 0 < replayUntil <= |log|
    ensures var s0 := ListedTab(log, Listing(true, replayUntil));
            var s := Run(s0, [Reconnect(true), TimerFires, Responds(0, Session(log, |log|, false, true, []))] + [Adopted]);
            s.replayUntil == replayUntil && !Tagged(s.scroll.stream, replayUntil)
  {
    var listing := Listing(true, replayUntil);
    var s0 := ListedTab(log, listing);
    var session := Session(log, |log|, false, true, []);
    var s2 := Step(Step(s0, Reconnect(true)), TimerFires);
    var before := [Reconnect(true), TimerFires, Responds(0, session)];
    InitialHolds(s0);
    PollReplaced(s0);
    assert s2.scroll == Scroll([], [], []) && s2.cursor == 0 && s2.replayUntil == 0;
    RunOfThree(s0, Reconnect(true), TimerFires, Responds(0, session));
    hide Inv, Run;
    FirstAnswerIsNew(s2, session);
    ReplayTaggingIff(log, listing, before, []);
    assert [Adopted] + [] == [Adopted];
    RunOfConcat(s0, before, [Adopted]);
  }

  lemma FirstAnswerIsNew(s: Tab, session: Session)
    requires Live(s, 0) && 0 in s.tasks && s.tasks[0] == AwaitResponse(Poller, 0)
    requires s.scroll == Scroll([], [], []) && s.replayUntil == 0
    requires session == Session(s.log, |s.log|, false, true, []) && s.log != []
    ensures Step(s, Responds(0, session)).scroll.stream == [Output(s.log, false)]
    ensures forall until :: until > 0 ==> ShowsOld([Output(s.log, false)], until)
  {
    assert Conforms(s.log, 0, session);
    var stream := [Output(s.log, false)];
    assert stream[..0] == [] && Position([]) == 0 && stream[0].Output?;
    assert session.output[..0] == [] && session.output[0..] == s.log && [] + stream == stream;
    assert AppendAnswer(s.scroll, s.cursor, 0, session).stream == stream by {
      hide Conforms, Last;
    }
    hide Conforms, AppendAnswer;
  }
}
