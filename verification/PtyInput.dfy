/**
 The input side of a PTY tab: chunking on character boundaries, a bounded FIFO queue,
 one write in flight, and nothing sent again after an unconfirmed write.
 */
module PtyInput {
  import opened CodeUnits

  const MAX_PTY_INPUT := 65536
  const CHUNK_LENGTH := 4096

  // ---------------------------------------------------------- UTF-8 sizes

  predicate IsHigh(u: CodeUnit) { 0xd800 <= u <= 0xdbff }

  predicate IsLow(u: CodeUnit) { 0xdc00 <= u <= 0xdfff }

  /** The length of the first character: two units for a surrogate pair. */
  function CharLength(t: JsText): (n: nat)
    requires t != []
    ensures 1 <= n <= 2 && n <= |t|
  {
    if |t| >= 2 && IsHigh(t[0]) && IsLow(t[1]) then 2 else 1
  }

  /** Bytes `TextEncoder` writes for the first character; a lone surrogate becomes U+FFFD. */
  function CharSize(t: JsText): nat
    requires t != []
  {
    if CharLength(t) == 2 then 4 else if t[0] < 0x80 then 1 else if t[0] < 0x800 then 2 else 3
  }

  function Utf8Size(t: JsText): nat {
    if t == [] then 0 else CharSize(t) + Utf8Size(t[CharLength(t)..])
  }

  /** Cutting between `a` and `b` does not cut a surrogate pair. */
  predicate CleanCut(a: JsText, b: JsText) {
    a != [] && b != [] ==> !(IsHigh(a[|a| - 1]) && IsLow(b[0]))
  }

  lemma {:induction false} SizeOfConcat(a: JsText, b: JsText)
    requires CleanCut(a, b)
    ensures Utf8Size(a + b) == Utf8Size(a) + Utf8Size(b)
    decreases |a|
  {
    if a == [] {
      assert a + b == b;
    } else {
      var n := CharLength(a);
      assert CharLength(a + b) == n;
      assert (a + b)[n..] == a[n..] + b;
      SizeOfConcat(a[n..], b);
    }
  }

  // ---------------------------------------------------------- chunking

  function Flatten(chunks: seq<JsText>): JsText {
    if chunks == [] then [] else Flatten(chunks[..|chunks| - 1]) + chunks[|chunks| - 1]
  }

  function TotalSize(chunks: seq<JsText>): nat {
    if chunks == [] then 0 else TotalSize(chunks[..|chunks| - 1]) + Utf8Size(chunks[|chunks| - 1])
  }

  /** The loop of `write` from a point where `chunk` is pending and `rest` is still to come. */
  function Chunked(chunk: JsText, rest: JsText): seq<JsText>
    decreases |rest|
  {
    if rest == [] then if chunk == [] then [] else [chunk]
    else
      var n := CharLength(rest);
      var longer := chunk + rest[..n];
      if |longer| >= CHUNK_LENGTH then [longer] + Chunked([], rest[n..]) else Chunked(longer, rest[n..])
  }

  lemma {:induction false} FlattenFront(first: JsText, chunks: seq<JsText>)
    ensures Flatten([first] + chunks) == first + Flatten(chunks)
    ensures TotalSize([first] + chunks) == Utf8Size(first) + TotalSize(chunks)
  {
    if chunks == [] {
      assert [first] + chunks == [first];
      assert [first][..0] == [];
    } else {
      var init, last := chunks[..|chunks| - 1], chunks[|chunks| - 1];
      FlattenFront(first, init);
      assert ([first] + chunks)[..|chunks|] == [first] + init;
      assert first + Flatten(init) + last == first + (Flatten(init) + last);
    }
  }

  lemma EmptyTotals()
    ensures Flatten([]) == [] && TotalSize([]) == 0 && Utf8Size([]) == 0
  {
  }

  /** A character never ends on a high surrogate that a low one follows. */
  lemma CharEndsClean(t: JsText)
    requires t != []
    ensures CleanCut(t[..CharLength(t)], t[CharLength(t)..])
  {
  }

  /** Chunking keeps the text and its byte count, makes no empty chunk, and bounds every chunk. */
  lemma {:induction false} ChunkedFacts(chunk: JsText, rest: JsText)
    requires |chunk| < CHUNK_LENGTH && CleanCut(chunk, rest)
    ensures var chunks := Chunked(chunk, rest);
            && Flatten(chunks) == chunk + rest
            && TotalSize(chunks) == Utf8Size(chunk + rest)
            && forall i :: 0 <= i < |chunks| ==> 1 <= |chunks[i]| <= CHUNK_LENGTH + 1
    decreases |rest|
  {
    hide Utf8Size, Flatten, TotalSize;
    EmptyTotals();
    if rest == [] {
      assert chunk + rest == chunk;
      if chunk != [] {
        FlattenFront(chunk, []);
        assert [chunk] + [] == [chunk];
      }
    } else {
      var n := CharLength(rest);
      var longer, after := chunk + rest[..n], rest[n..];
      CharEndsClean(rest);
      assert longer + after == chunk + rest;
      if |longer| >= CHUNK_LENGTH {
        ChunkedFacts([], after);
        assert [] + after == after;
        FlattenFront(longer, Chunked([], after));
        SizeOfConcat(longer, after);
      } else {
        ChunkedFacts(longer, after);
      }
    }
  }

  // ---------------------------------------------------------- the line

  /** A queued chunk and its place in the order of admission. */
  datatype Queued = Queued(serial: nat, data: JsText)

  datatype Line = Line(
    queue: seq<Queued>, queuedBytes: nat, writing: bool, flights: map<nat, Queued>, nextId: nat,
    admitted: seq<JsText>, sent: seq<nat>)

  /** `live`: the tab is attached and running when the stretch looks. `allowed`: `write`'s other guards hold too. */
  datatype Event =
    | Write(data: JsText, allowed: bool)
    | Confirmed(flight: nat, live: bool)
    | Unconfirmed(flight: nat, live: bool)

  const EMPTY_LINE := Line([], 0, false, map[], 0, [], [])

  function QueueSize(queue: seq<Queued>): nat {
    if queue == [] then 0 else QueueSize(queue[..|queue| - 1]) + Utf8Size(queue[|queue| - 1].data)
  }

  /** Number chunks from `serial` on. */
  function Numbered(chunks: seq<JsText>, serial: nat): seq<Queued> {
    seq(|chunks|, i requires 0 <= i < |chunks| => Queued(serial + i, chunks[i]))
  }

  function AtLeastZero(n: int): nat {
    if n < 0 then 0 else n
  }

  function Clear(s: Line): Line {
    s.(queue := [], queuedBytes := 0)
  }

  /** Leaving the loop of `flush`. */
  function Stop(s: Line, live: bool): Line {
    (if live then s else Clear(s)).(writing := false)
  }

  /** One turn of the loop of `flush`: send the next chunk or leave. */
  function Turn(s: Line, live: bool): Line {
    if live && s.queue != [] then
      s.(queue := s.queue[1..], flights := s.flights[s.nextId := s.queue[0]], nextId := s.nextId + 1,
         sent := s.sent + [s.queue[0].serial])
    else Stop(s, live)
  }

  predicate Accepts(s: Line, data: JsText, allowed: bool) {
    allowed && data != [] && s.queuedBytes + Utf8Size(data) <= MAX_PTY_INPUT
  }

  function Admit(s: Line, data: JsText): Line {
    var chunks := Chunked([], data);
    s.(queuedBytes := s.queuedBytes + Utf8Size(data),
       queue := s.queue + Numbered(chunks, |s.admitted|),
       admitted := s.admitted + chunks)
  }

  function Step(s: Line, e: Event): Line {
    match e
    case Write(data, allowed) =>
      if !Accepts(s, data, allowed) then s
      else
        var admitted := Admit(s, data);
        if s.writing then admitted else Turn(admitted.(writing := true), true)
    case Confirmed(flight, live) =>
      if flight !in s.flights then s
      else
        var size := Utf8Size(s.flights[flight].data);
        Turn(s.(flights := s.flights - {flight}, queuedBytes := AtLeastZero(s.queuedBytes - size)), live)
    case Unconfirmed(flight, live) =>
      if flight !in s.flights then s
      else Stop(Clear(s.(flights := s.flights - {flight})), live)
  }

  function Run(s: Line, events: seq<Event>): Line
    decreases |events|
  {
    if events == [] then s else Run(Step(s, events[0]), events[1..])
  }

  // ---------------------------------------------------------- invariants

  /** The first admission number that is still waiting. */
  ghost function Front(s: Line): int {
    |s.admitted| - |s.queue|
  }

  ghost predicate QueueInOrder(s: Line) {
    && 0 <= Front(s)
    && forall i :: 0 <= i < |s.queue| ==> s.queue[i] == Queued(Front(s) + i, s.admitted[Front(s) + i])
  }

  ghost predicate SentInOrder(s: Line) {
    && (forall i :: 0 <= i < |s.sent| ==> s.sent[i] < Front(s))
    && (forall i, j :: 0 <= i < j < |s.sent| ==> s.sent[i] < s.sent[j])
  }

  /** At most one write is in flight, and `writing` says whether there is one. */
  ghost predicate OneFlight(s: Line) {
    && (forall t :: t in s.flights ==> s.writing && t < s.nextId)
    && (forall t, u :: t in s.flights && u in s.flights ==> t == u)
    && (s.writing ==> s.flights != map[])
    && (forall t :: t in s.flights ==>
          s.sent != [] && s.flights[t].serial == s.sent[|s.sent| - 1] && s.flights[t].serial < |s.admitted|
          && s.flights[t].data == s.admitted[s.flights[t].serial])
  }

  /** The byte counter is exact: what waits plus what is in flight. */
  ghost predicate BytesExact(s: Line) {
    && s.queuedBytes <= MAX_PTY_INPUT
    && (s.flights == map[] ==> s.queuedBytes == QueueSize(s.queue))
    && (forall t :: t in s.flights ==> s.queuedBytes == QueueSize(s.queue) + Utf8Size(s.flights[t].data))
  }

  /** While nothing is being written, nothing waits. */
  ghost predicate IdleIsEmpty(s: Line) {
    !s.writing ==> s.queue == []
  }

  ghost predicate Inv(s: Line) {
    QueueInOrder(s) && SentInOrder(s) && OneFlight(s) && BytesExact(s) && IdleIsEmpty(s)
  }

  lemma {:induction false} QueueSizeNumbered(queue: seq<Queued>, chunks: seq<JsText>, serial: nat)
    ensures QueueSize(queue + Numbered(chunks, serial)) == QueueSize(queue) + TotalSize(chunks)
    decreases |chunks|
  {
    var tail := Numbered(chunks, serial);
    if chunks == [] {
      assert queue + tail == queue;
    } else {
      var init := chunks[..|chunks| - 1];
      QueueSizeNumbered(queue, init, serial);
      assert (queue + tail)[..|queue + tail| - 1] == queue + Numbered(init, serial);
    }
  }

  lemma {:induction false} QueueSizeShift(queue: seq<Queued>)
    requires queue != []
    ensures QueueSize(queue) == Utf8Size(queue[0].data) + QueueSize(queue[1..])
    decreases |queue|
  {
    if |queue| > 1 {
      var init := queue[..|queue| - 1];
      QueueSizeShift(init);
      assert queue[1..][..|queue| - 2] == init[1..];
    } else {
      assert queue[..0] == [];
    }
  }

  /** Between stretches `writing` means a flight; inside one it may be set with none. */
  ghost predicate Between(s: Line) {
    && QueueInOrder(s) && SentInOrder(s) && s.flights == map[] && s.queuedBytes == QueueSize(s.queue) <= MAX_PTY_INPUT
  }

  lemma EmptyQueueSize()
    ensures QueueSize([]) == 0
  {
  }

  lemma TurnKeeps(s: Line, live: bool)
    requires Between(s) && s.writing
    ensures Inv(Turn(s, live))
  {
    hide Utf8Size, QueueSize;
    EmptyQueueSize();
    if live && s.queue != [] {
      QueueSizeShift(s.queue);
      var t := Turn(s, live);
      assert s.queue[0] == Queued(Front(s), s.admitted[Front(s)]);
      assert s.nextId in t.flights;
      assert QueueInOrder(t);
      assert SentInOrder(t);
    } else {
      var t := Stop(s, live);
      assert t.queue == [] || t == s.(writing := false);
      assert QueueInOrder(t);
      assert SentInOrder(t);
      assert OneFlight(t);
      assert BytesExact(t);
    }
  }

  /** Admitted chunks join the end of the queue under the numbers that follow. */
  lemma NumberedInOrder(s: Line, chunks: seq<JsText>)
    requires QueueInOrder(s)
    ensures QueueInOrder(s.(queue := s.queue + Numbered(chunks, |s.admitted|), admitted := s.admitted + chunks))
  {
    hide Utf8Size;
    var t := s.(queue := s.queue + Numbered(chunks, |s.admitted|), admitted := s.admitted + chunks);
    forall i | 0 <= i < |t.queue| ensures t.queue[i] == Queued(Front(t) + i, t.admitted[Front(t) + i]) {
      if i < |s.queue| {
        assert t.queue[i] == s.queue[i];
      } else {
        assert t.queue[i] == Numbered(chunks, |s.admitted|)[i - |s.queue|];
      }
    }
  }

  lemma AdmittedSize(s: Line, data: JsText)
    requires Inv(s) && Accepts(s, data, true)
    ensures QueueSize(Admit(s, data).queue) == QueueSize(s.queue) + Utf8Size(data)
  {
    hide Utf8Size, Chunked, TotalSize, Flatten, QueueSize, Numbered, Inv;
    ChunkedFacts([], data);
    assert [] + data == data;
    QueueSizeNumbered(s.queue, Chunked([], data), |s.admitted|);
  }

  lemma AdmitKeeps(s: Line, data: JsText)
    requires Inv(s) && Accepts(s, data, true)
    ensures s.writing ==> Inv(Admit(s, data))
    ensures !s.writing ==> Between(Admit(s, data).(writing := true))
  {
    hide Utf8Size, Chunked, QueueSize, Numbered;
    NumberedInOrder(s, Chunked([], data));
    AdmittedSize(s, data);
    var t := Admit(s, data);
    var queued := s.(queue := t.queue, admitted := t.admitted);
    assert QueueInOrder(queued) && t == queued.(queuedBytes := t.queuedBytes);
    assert QueueInOrder(t) && |t.queue| - |s.queue| == |t.admitted| - |s.admitted| by {
      NumberedLength(Chunked([], data), |s.admitted|);
    }
    hide QueueInOrder;
    assert OneFlight(t);
  }

  lemma NumberedLength(chunks: seq<JsText>, serial: nat)
    ensures |Numbered(chunks, serial)| == |chunks|
  {
  }

  lemma StepKeeps(s: Line, e: Event)
    requires Inv(s)
    ensures Inv(Step(s, e))
  {
    hide Utf8Size, Chunked, Turn, Admit, QueueSize;
    match e {
      case Write(data, allowed) =>
        if Accepts(s, data, allowed) {
          AdmitKeeps(s, data);
          if !s.writing {
            TurnKeeps(Admit(s, data).(writing := true), true);
          }
        }
      case Confirmed(flight, live) =>
        if flight in s.flights {
          var landed := s.(flights := s.flights - {flight}, queuedBytes := QueueSize(s.queue));
          assert landed.flights == map[];
          TurnKeeps(landed, live);
        }
      case Unconfirmed(flight, live) =>
        if flight in s.flights {
          assert s.flights - {flight} == map[];
          EmptyQueueSize();
        }
    }
  }

  lemma {:induction false} RunKeeps(s: Line, events: seq<Event>)
    requires Inv(s)
    ensures Inv(Run(s, events))
    decreases |events|
  {
    hide Inv, Step;
    if events != [] {
      StepKeeps(s, events[0]);
      RunKeeps(Step(s, events[0]), events[1..]);
    }
  }

  // ---------------------------------------------------------- what a user can rely on

  /**
   Input protocol, over every run: the byte counter is the UTF-8 size of what waits plus
   what is in flight and never exceeds the limit, at most one write is in flight, and
   chunks go out in the order they were admitted, each at most once.
   */
  lemma InputProtocol(events: seq<Event>)
    ensures var s := Run(EMPTY_LINE, events);
            && BytesExact(s) && OneFlight(s) && SentInOrder(s) && IdleIsEmpty(s)
            && (forall i :: 0 <= i < |s.sent| ==> s.sent[i] < |s.admitted|)
  {
    RunKeeps(EMPTY_LINE, events);
  }

  /** From `before` to `after` only chunks that were still waiting, or came later, went out. */
  ghost predicate SendsOnlyNew(before: Line, after: Line) {
    && before.sent <= after.sent
    && before.admitted <= after.admitted
    && Front(before) <= Front(after)
    && forall i :: |before.sent| <= i < |after.sent| ==> after.sent[i] >= Front(before)
  }

  lemma StepSendsOnlyNew(s: Line, e: Event)
    requires Inv(s)
    ensures SendsOnlyNew(s, Step(s, e))
  {
    hide Utf8Size, Chunked, QueueSize;
  }

  lemma {:induction false} RunSendsOnlyNew(s: Line, events: seq<Event>)
    requires Inv(s)
    ensures SendsOnlyNew(s, Run(s, events))
    decreases |events|
  {
    hide Inv, Step;
    if events != [] {
      StepKeeps(s, events[0]);
      StepSendsOnlyNew(s, events[0]);
      RunSendsOnlyNew(Step(s, events[0]), events[1..]);
    }
  }

  /**
   After an unconfirmed write everything that waited is dropped: whatever happens later,
   a chunk admitted before the failure is never sent, or sent again.
   */
  lemma NeverResent(s: Line, flight: nat, live: bool, later: seq<Event>)
    requires Inv(s) && flight in s.flights
    ensures var failed := Step(s, Unconfirmed(flight, live));
            && failed.queue == [] && failed.queuedBytes == 0 && failed.sent == s.sent && failed.admitted == s.admitted
            && var end := Run(failed, later);
               forall i :: |s.sent| <= i < |end.sent| ==> end.sent[i] >= |s.admitted|
  {
    var failed := Step(s, Unconfirmed(flight, live));
    StepKeeps(s, Unconfirmed(flight, live));
    RunSendsOnlyNew(failed, later);
  }

  // ---------------------------------------------------------- nothing is lost while the shell answers

  /** Every stretch sees a live tab and every write is confirmed. */
  predicate Smooth(e: Event) {
    match e
    case Write(_, _) => true
    case Confirmed(_, live) => live
    case Unconfirmed(_, _) => false
  }

  /** The texts that `write` accepted during a run, joined. */
  function AcceptedText(s: Line, events: seq<Event>): JsText
    decreases |events|
  {
    if events == [] then []
    else
      var e := events[0];
      (if e.Write? && Accepts(s, e.data, e.allowed) then e.data else []) + AcceptedText(Step(s, e), events[1..])
  }

  /** Everything admitted has been sent, in order, except what still waits. */
  ghost predicate NothingSkipped(s: Line) {
    |s.sent| == Front(s) && forall i :: 0 <= i < |s.sent| ==> s.sent[i] == i
  }

  lemma SmoothStep(s: Line, e: Event)
    requires Inv(s) && NothingSkipped(s) && Smooth(e)
    ensures NothingSkipped(Step(s, e))
  {
    hide Utf8Size, Chunked, QueueSize;
  }

  lemma {:induction false} FlattenConcat(a: seq<JsText>, b: seq<JsText>)
    ensures Flatten(a + b) == Flatten(a) + Flatten(b)
    decreases |b|
  {
    if b == [] {
      assert a + b == a;
    } else {
      var init, last := b[..|b| - 1], b[|b| - 1];
      FlattenConcat(a, init);
      assert (a + b)[..|a + b| - 1] == a + init;
      assert Flatten(a) + (Flatten(init) + last) == Flatten(a) + Flatten(init) + last;
    }
  }

  lemma StepAdmits(s: Line, e: Event)
    ensures Flatten(Step(s, e).admitted)
            == Flatten(s.admitted) + (if e.Write? && Accepts(s, e.data, e.allowed) then e.data else [])
  {
    hide Utf8Size, Chunked, QueueSize, Flatten, Numbered;
    if e.Write? && Accepts(s, e.data, e.allowed) {
      ChunkedFacts([], e.data);
      assert [] + e.data == e.data;
      FlattenConcat(s.admitted, Chunked([], e.data));
    }
  }

  /** Chunks of the accepted texts, joined, are those texts joined, over every run. */
  lemma {:induction false} RunAdmits(s: Line, events: seq<Event>)
    ensures Flatten(Run(s, events).admitted) == Flatten(s.admitted) + AcceptedText(s, events)
    decreases |events|
  {
    hide Step, Accepts, Flatten;
    if events != [] {
      var e := events[0];
      var now := if e.Write? && Accepts(s, e.data, e.allowed) then e.data else [];
      StepAdmits(s, e);
      RunAdmits(Step(s, e), events[1..]);
      assert Flatten(s.admitted) + now + AcceptedText(Step(s, e), events[1..])
          == Flatten(s.admitted) + (now + AcceptedText(Step(s, e), events[1..]));
    }
  }

  lemma {:induction false} SmoothRun(s: Line, events: seq<Event>)
    requires Inv(s) && NothingSkipped(s) && forall i :: 0 <= i < |events| ==> Smooth(events[i])
    ensures NothingSkipped(Run(s, events))
    decreases |events|
  {
    hide Inv, NothingSkipped, Step, Smooth;
    if events != [] {
      StepKeeps(s, events[0]);
      SmoothStep(s, events[0]);
      SmoothRun(Step(s, events[0]), events[1..]);
    }
  }

  /**
   While the tab stays live and every write is confirmed, what was sent is a prefix of the
   accepted text, chunk by chunk, and the rest of it is what still waits.
   */
  lemma Lossless(events: seq<Event>)
    requires forall i :: 0 <= i < |events| ==> Smooth(events[i])
    ensures var s := Run(EMPTY_LINE, events);
            && Flatten(s.admitted) == AcceptedText(EMPTY_LINE, events)
            && |s.sent| + |s.queue| == |s.admitted|
            && (forall i :: 0 <= i < |s.sent| ==> s.sent[i] == i)
            && (forall i :: 0 <= i < |s.queue| ==> s.queue[i].data == s.admitted[|s.sent| + i])
  {
    hide Step, Smooth, Flatten;
    EmptyTotals();
    EmptyLineHolds();
    RunKeeps(EMPTY_LINE, events);
    SmoothRun(EMPTY_LINE, events);
    RunAdmits(EMPTY_LINE, events);
  }

  /** The write in flight and those that will follow it, all confirmed in a live tab. */
  function Confirmations(s: Line, flight: nat): seq<Event> {
    [Confirmed(flight, true)] + seq(|s.queue|, i requires 0 <= i < |s.queue| => Confirmed(s.nextId + i, true))
  }

  lemma ConfirmationsShift(s: Line, flight: nat)
    requires s.queue != []
    ensures Confirmations(s, flight)[1..] == Confirmations(s.(queue := s.queue[1..], nextId := s.nextId + 1), s.nextId)
  {
  }

  /** What waits is sent: while writes are confirmed, every chunk goes out in its order and the line falls idle. */
  lemma {:induction false} Drains(s: Line, flight: nat)
    requires Inv(s) && flight in s.flights
    ensures var end := Run(s, Confirmations(s, flight));
            && end.queue == [] && !end.writing && end.flights == map[] && end.queuedBytes == 0 && end.admitted == s.admitted
            && |end.sent| == |s.sent| + |s.queue| && s.sent <= end.sent
            && forall k :: |s.sent| <= k < |end.sent| ==> end.sent[k] == |s.admitted| - |end.sent| + k
    decreases |s.queue|
  {
    hide Utf8Size, QueueSize;
    var first := Confirmed(flight, true);
    var t := Step(s, first);
    StepKeeps(s, first);
    assert Confirmations(s, flight)[0] == first;
    assert s.flights - {flight} == map[];
    if s.queue == [] {
      EmptyQueueSize();
      assert Confirmations(s, flight)[1..] == [];
      assert t.flights == map[] && t.queue == [];
    } else {
      assert s.nextId in t.flights && t.queue == s.queue[1..] && t.nextId == s.nextId + 1 && t.admitted == s.admitted;
      assert t.sent == s.sent + [s.queue[0].serial];
      ConfirmationsShift(s, flight);
      assert Confirmations(s, flight)[1..] == Confirmations(t, s.nextId);
      hide Inv;
      Drains(t, s.nextId);
    }
  }

  /** `write` takes a text exactly if the tab allows it, it is not empty and it fits, and then takes all of it. */
  lemma WriteIff(s: Line, data: JsText, allowed: bool)
    requires Inv(s)
    ensures var t := Step(s, Write(data, allowed));
            if allowed && data != [] && s.queuedBytes + Utf8Size(data) <= 65536
            then Flatten(t.admitted) == Flatten(s.admitted) + data && t.queuedBytes == s.queuedBytes + Utf8Size(data) && t.writing
            else t == s
  {
    StepAdmits(s, Write(data, allowed));
    StepKeeps(s, Write(data, allowed));
    hide Utf8Size, Flatten, Chunked, Numbered, QueueSize, Inv;
    if Accepts(s, data, allowed) {
      ChunkedSome(s, data);
    }
  }

  lemma ChunkedSome(s: Line, data: JsText)
    requires data != []
    ensures Admit(s, data).queue != []
  {
    ChunkedFacts([], data);
    NumberedLength(Chunked([], data), |s.admitted|);
    assert Flatten([]) == [];
    hide Chunked, Numbered, Utf8Size;
  }

  // ---------------------------------------------------------- UTF-8

  /** What `TextEncoder` writes for a code point. */
  function EncodePoint(p: nat): seq<nat> {
    if p < 0x80 then [p]
    else if p < 0x800 then [0xc0 + p / 0x40, 0x80 + p % 0x40]
    else if p < 0x1_0000 then [0xe0 + p / 0x1000, 0x80 + p / 0x40 % 0x40, 0x80 + p % 0x40]
    else [0xf0 + p / 0x4_0000, 0x80 + p / 0x1000 % 0x40, 0x80 + p / 0x40 % 0x40, 0x80 + p % 0x40]
  }

  /** UTF-8 of a text of code units: a surrogate pair is one code point, a lone surrogate reads as U+FFFD. */
  function Utf8(t: JsText): seq<nat> {
    if t == [] then []
    else if |t| >= 2 && 0xd800 <= t[0] <= 0xdbff && 0xdc00 <= t[1] <= 0xdfff then
      EncodePoint(0x1_0000 + (t[0] as nat - 0xd800) * 0x400 + (t[1] as nat - 0xdc00)) + Utf8(t[2..])
    else EncodePoint(if 0xd800 <= t[0] <= 0xdfff then 0xfffd else t[0] as nat) + Utf8(t[1..])
  }

  /** The sizes that are counted are those of the bytes written. */
  lemma {:induction false} SizeIsUtf8(t: JsText)
    ensures Utf8Size(t) == |Utf8(t)|
  {
    if t != [] {
      SizeIsUtf8(t[CharLength(t)..]);
    }
  }

  lemma EmptyLineHolds()
    ensures Inv(EMPTY_LINE) && NothingSkipped(EMPTY_LINE)
  {
  }

  // ---------------------------------------------------------- the record updated in place

  lemma NumberedMore(chunks: seq<JsText>, last: JsText, serial: nat)
    ensures Numbered(chunks + [last], serial) == Numbered(chunks, serial) + [Queued(serial + |chunks|, last)]
  {
  }

  /** The input half of a tab's record. Each chunk carries its place in the order of admission. */
  class PtyLine {
    var queue: seq<Queued>
    var queuedBytes: nat
    var writing: bool
    var serial: nat
    // The suspended write of `flush`.
    var flights: map<nat, Queued>
    var nextId: nat
    // What was admitted and what was sent: not part of the record itself.
    ghost var admitted: seq<JsText>
    ghost var sent: seq<nat>

    ghost predicate Valid()
      reads this`serial, this`admitted
    {
      serial == |admitted|
    }

    ghost function View(): Line
      reads this
    {
      Line(queue, queuedBytes, writing, flights, nextId, admitted, sent)
    }

    constructor ()
      ensures Valid() && View() == EMPTY_LINE
    {
      queue, queuedBytes, writing, serial, flights, nextId := [], 0, false, 0, map[], 0;
      admitted, sent := [], [];
    }

    method Push(chunk: JsText)
      requires Valid()
      modifies `queue, `serial, `admitted
      ensures Valid()
      ensures queue == old(queue) + [Queued(old(serial), chunk)] && admitted == old(admitted) + [chunk]
    {
      queue := queue + [Queued(serial, chunk)];
      serial := serial + 1;
      admitted := admitted + [chunk];
    }

    /** Cut the text on character boundaries and queue the pieces. */
    method Enqueue(data: JsText)
      requires Valid()
      modifies `queue, `serial, `admitted
      ensures Valid()
      ensures queue == old(queue) + Numbered(Chunked([], data), old(|admitted|))
      ensures admitted == old(admitted) + Chunked([], data)
    {
      var chunk: JsText, rest := [], data;
      ghost var pushed: seq<JsText> := [];
      assert Numbered(pushed, serial) == [];
      while rest != []
        invariant Valid()
        invariant pushed + Chunked(chunk, rest) == Chunked([], data)
        invariant queue == old(queue) + Numbered(pushed, old(|admitted|)) && admitted == old(admitted) + pushed
        decreases |rest|
      {
        var n := CharLength(rest);
        ghost var todo := Chunked(chunk, rest);
        chunk, rest := chunk + rest[..n], rest[n..];
        if |chunk| >= CHUNK_LENGTH {
          assert todo == [chunk] + Chunked([], rest);
          assert pushed + todo == pushed + [chunk] + Chunked([], rest);
          NumberedMore(pushed, chunk, old(|admitted|));
          Push(chunk);
          pushed, chunk := pushed + [chunk], [];
        }
      }
      if chunk != [] {
        NumberedMore(pushed, chunk, old(|admitted|));
        Push(chunk);
      }
    }

    method ClearQueue()
      modifies `queue, `queuedBytes
      ensures View() == Clear(old(View()))
    {
      queue, queuedBytes := [], 0;
    }

    /** One turn of the loop of `flush`, up to its `await` or its end. */
    method FlushTurn(live: bool)
      modifies `queue, `queuedBytes, `writing, `flights, `nextId, `sent
      ensures View() == Turn(old(View()), live)
    {
      if live && queue != [] {
        sent := sent + [queue[0].serial];
        flights := flights[nextId := queue[0]];
        nextId := nextId + 1;
        queue := queue[1..];
      } else {
        if !live {
          ClearQueue();
        }
        writing := false;
      }
    }

    /** `write`: admit the whole text or none of it. */
    method Write(data: JsText, allowed: bool) returns (ok: bool)
      requires Valid() && Inv(View())
      modifies this
      ensures Valid() && Inv(View())
      ensures View() == Step(old(View()), Event.Write(data, allowed))
      ensures ok <==> allowed && data != [] && Utf8Size(data) <= MAX_PTY_INPUT - old(queuedBytes)
    {
      hide Chunked, Utf8Size, QueueSize, Inv;
      StepKeeps(View(), Event.Write(data, allowed));
      if !allowed || data == [] {
        return false;
      }
      var size := Utf8Size(data);
      if queuedBytes + size > MAX_PTY_INPUT {
        return false;
      }
      ghost var before := View();
      AdmitKeeps(before, data);
      queuedBytes := queuedBytes + size;
      Enqueue(data);
      assert View() == Admit(before, data);
      if !writing {
        writing := true;
        assert Between(View());
        FlushTurn(true);
      }
      return true;
    }

    /** The loop of `flush` resumes after the runtime confirmed a write. */
    method Confirmed(flight: nat, live: bool)
      requires Valid() && Inv(View()) && flight in flights
      modifies `queue, `queuedBytes, `writing, `flights, `nextId, `sent
      ensures Valid() && Inv(View())
      ensures View() == Step(old(View()), Event.Confirmed(flight, live))
    {
      hide Chunked, Utf8Size, QueueSize;
      StepKeeps(View(), Event.Confirmed(flight, live));
      hide Inv;
      assert QueueInOrder(View());
      var size := Utf8Size(flights[flight].data);
      flights := flights - {flight};
      queuedBytes := AtLeastZero(queuedBytes - size);
      FlushTurn(live);
    }

    /** The loop of `flush` leaves after a write that failed. */
    method Unconfirmed(flight: nat, live: bool)
      requires Valid() && Inv(View()) && flight in flights
      modifies `queue, `queuedBytes, `writing, `flights
      ensures Valid() && Inv(View())
      ensures View() == Step(old(View()), Event.Unconfirmed(flight, live))
    {
      hide Chunked, Utf8Size, QueueSize;
      StepKeeps(View(), Event.Unconfirmed(flight, live));
      hide Inv;
      flights := flights - {flight};
      ClearQueue();
      if !live {
        ClearQueue();
      }
      writing := false;
    }
  }
}
