/**
 Planning the replay of an external conversation: length-framed hashing, event keys that
 are stable from run to run, and why a second run delivers nothing twice.
 */
module Importer {
  import opened Text

  newtype Byte = x: int | 0 <= x < 256

  /** A Rust string or byte slice. */
  type Bytes = seq<Byte>

  const MAX_CONVERSATION_FILE_BYTES := 2 * 1024 * 1024
  const MAX_CONVERSATION_MESSAGES := 128
  const MAX_USER_MESSAGE_BYTES := 16 * 1024
  const MAX_EXTENSION_MESSAGE_BYTES := 2000
  const MAX_CONVERSATION_TOTAL_BYTES := 1024 * 1024

  /** An ASCII literal of the source. */
  function Ascii(s: string): Bytes {
    seq(|s|, i requires 0 <= i < |s| => if s[i] as int < 128 then s[i] as int as Byte else 63)
  }

  const VERSION := Ascii("external-conversation-v1")

  // ---------------------------------------------------------- framing

  function Power256(n: nat): nat {
    if n == 0 then 1 else 256 * Power256(n - 1)
  }

  function LittleEndian(n: nat, width: nat): (b: Bytes)
    ensures |b| == width
  {
    if width == 0 then [] else [(n % 256) as Byte] + LittleEndian(n / 256, width - 1)
  }

  function Value(b: Bytes): nat {
    if b == [] then 0 else b[0] as nat + 256 * Value(b[1..])
  }

  lemma {:induction false} ValueOfLittleEndian(n: nat, width: nat)
    requires n < Power256(width)
    ensures Value(LittleEndian(n, width)) == n
  {
    if width > 0 {
      ValueOfLittleEndian(n / 256, width - 1);
    }
  }

  /** `hash_part`: the length as eight little-endian bytes, then the part. */
  function Frame(part: Bytes): Bytes {
    LittleEndian(|part|, 8) + part
  }

  function FrameAll(parts: seq<Bytes>): Bytes {
    if parts == [] then [] else Frame(parts[0]) + FrameAll(parts[1..])
  }

  /** Lengths are 64-bit. */
  predicate Fits(parts: seq<Bytes>) {
    forall i :: 0 <= i < |parts| ==> |parts[i]| < Power256(8)
  }

  /** Read framed bytes back. */
  function Unframe(b: Bytes): Option<seq<Bytes>>
    decreases |b|
  {
    if b == [] then Some([])
    else if |b| < 8 then None
    else
      var n := Value(b[..8]);
      if 8 + n > |b| then None
      else
        match Unframe(b[8 + n..])
        case None => None
        case Some(rest) => Some([b[8..8 + n]] + rest)
  }

  lemma UnframeStep(first: Bytes, rest: Bytes)
    requires |first| < Power256(8)
    ensures Unframe(Frame(first) + rest)
            == match Unframe(rest) case None => None case Some(parts) => Some([first] + parts)
  {
    ValueOfLittleEndian(|first|, 8);
    hide Value, LittleEndian, Power256;
    var all := Frame(first) + rest;
    var n := |first|;
    assert all[..8] == LittleEndian(n, 8);
    assert all[8..8 + n] == first && all[8 + n..] == rest;
  }

  /** Framed bytes decode to their parts, and to nothing else. */
  lemma {:induction false} FrameRoundTrip(parts: seq<Bytes>)
    requires Fits(parts)
    ensures Unframe(FrameAll(parts)) == Some(parts)
  {
    hide Frame, Power256;
    if parts != [] {
      FrameRoundTrip(parts[1..]);
      UnframeStep(parts[0], FrameAll(parts[1..]));
      assert [parts[0]] + parts[1..] == parts;
    }
  }

  lemma FrameInjective(a: seq<Bytes>, b: seq<Bytes>)
    requires Fits(a) && Fits(b) && FrameAll(a) == FrameAll(b)
    ensures a == b
  {
    FrameRoundTrip(a);
    FrameRoundTrip(b);
  }

  lemma {:induction false} FrameMore(parts: seq<Bytes>, part: Bytes)
    ensures FrameAll(parts + [part]) == FrameAll(parts) + Frame(part)
  {
    hide Frame;
    var longer := parts + [part];
    if parts == [] {
      assert longer == [part] && FrameAll(longer[1..]) == [];
      assert Frame(part) + [] == [] + Frame(part);
    } else {
      FrameMore(parts[1..], part);
      assert longer[0] == parts[0] && longer[1..] == parts[1..] + [part];
      Associative(Frame(parts[0]), FrameAll(parts[1..]), Frame(part));
    }
  }

  // ---------------------------------------------------------- decimal numbers

  function Decimal(n: nat): Bytes {
    if n < 10 then [(48 + n) as Byte] else Decimal(n / 10) + [(48 + n % 10) as Byte]
  }

  function Numeral(digits: Bytes): int
    decreases |digits|
  {
    if digits == [] then 0 else 10 * Numeral(digits[..|digits| - 1]) + (digits[|digits| - 1] as int - 48)
  }

  lemma {:induction false} DecimalRoundTrip(n: nat)
    ensures Numeral(Decimal(n)) == n
  {
    if n >= 10 {
      DecimalRoundTrip(n / 10);
      assert Decimal(n)[..|Decimal(n)| - 1] == Decimal(n / 10);
    } else {
      assert Decimal(n)[..0] == [];
    }
  }

  // ---------------------------------------------------------- conversations

  datatype Role = User | Assistant | System

  datatype Message = Message(role: Role, content: Bytes)

  datatype Envelope = Envelope(project: Bytes, source: Bytes, sessionId: Bytes, messages: seq<Message>)

  function RoleName(role: Role): Bytes {
    match role
    case User => Ascii("user")
    case Assistant => Ascii("assistant")
    case System => Ascii("system")
  }

  datatype Body =
    | StartBody(session: Bytes, source: Bytes, externalId: Bytes)
    | PromptBody(session: Bytes, prompt: Bytes, source: Bytes, role: Role)
    | MessageBody(session: Bytes, title: Bytes, message: Bytes, source: Bytes, role: Role)
    | EndBody(session: Bytes, source: Bytes, externalId: Bytes, transcript: Bytes)

  /**
   SHA-256 in hexadecimal, the JSON writer and reader, the redaction rules, the trimming of
   white space, the title of a message, and whether a server URL parses.
   */
  datatype Env = Env(hash: Bytes -> Bytes, json: Body -> Bytes, parse: Bytes -> Option<Envelope>, sanitize: Bytes -> Bytes,
                     trim: Bytes -> Bytes, title: (Bytes, Role) -> Bytes, isUrl: Bytes -> bool)

  ghost predicate SoundEnv(env: Env) {
    && (forall b :: |env.hash(b)| == 64)
    && (forall x, y :: env.json(x) == env.json(y) ==> x == y)
  }

  /** Two different inputs with one digest. */
  predicate Collision(env: Env, x: Bytes, y: Bytes) {
    x != y && env.hash(x) == env.hash(y)
  }

  function Digest(env: Env, parts: seq<Bytes>): Bytes {
    env.hash(FrameAll(parts))
  }

  function StableSession(env: Env, workspace: Bytes, e: Envelope): Bytes {
    var digest := Digest(env, [VERSION, workspace, e.project, e.source, e.sessionId]);
    Ascii("external-") + if |digest| < 32 then digest else digest[..32]
  }

  function MessageParts(messages: seq<Message>): seq<Bytes> {
    if messages == [] then [] else [RoleName(messages[0].role), messages[0].content] + MessageParts(messages[1..])
  }

  function TranscriptParts(e: Envelope): seq<Bytes> {
    [VERSION, e.project, e.source, e.sessionId] + MessageParts(e.messages)
  }

  function Fingerprint(env: Env, e: Envelope): Bytes {
    Digest(env, TranscriptParts(e))
  }

  function KeyParts(session: Bytes, index: nat, event: Bytes, body: Bytes): seq<Bytes> {
    [VERSION, session, Decimal(index), event, body]
  }

  function IngestKey(env: Env, session: Bytes, index: nat, event: Bytes, body: Body): Bytes {
    Digest(env, KeyParts(session, index, event, env.json(body)))
  }

  datatype PlannedEvent = PlannedEvent(index: nat, event: Bytes, key: Bytes, body: Body)

  function Planned(env: Env, session: Bytes, index: nat, event: Bytes, body: Body): PlannedEvent {
    PlannedEvent(index, event, IngestKey(env, session, index, event, body), body)
  }

  function StartEvent(env: Env, workspace: Bytes, e: Envelope): PlannedEvent {
    var session := StableSession(env, workspace, e);
    Planned(env, session, 0, Ascii("session-start"), StartBody(session, e.source, e.sessionId))
  }

  function EventName(role: Role): Bytes {
    match role
    case User => Ascii("user-prompt")
    case Assistant => Ascii("external.assistant-message")
    case System => Ascii("external.system-message")
  }

  function MessageEvent(env: Env, session: Bytes, source: Bytes, index: nat, m: Message): PlannedEvent {
    Planned(env, session, index, EventName(m.role),
            if m.role.User? then PromptBody(session, m.content, source, m.role)
            else MessageBody(session, env.title(m.content, m.role), m.content, source, m.role))
  }

  function MessageEvents(env: Env, session: Bytes, source: Bytes, messages: seq<Message>): seq<PlannedEvent> {
    seq(|messages|, i requires 0 <= i < |messages| => MessageEvent(env, session, source, i + 1, messages[i]))
  }

  function EndEvent(env: Env, workspace: Bytes, e: Envelope): PlannedEvent {
    var session := StableSession(env, workspace, e);
    Planned(env, session, |e.messages| + 1, Ascii("session-end"), EndBody(session, e.source, e.sessionId, Fingerprint(env, e)))
  }

  /** The events of a prepared conversation, in order. */
  function Events(env: Env, workspace: Bytes, e: Envelope): seq<PlannedEvent> {
    [StartEvent(env, workspace, e)]
    + MessageEvents(env, StableSession(env, workspace, e), e.source, e.messages)
    + [EndEvent(env, workspace, e)]
  }

  // ---------------------------------------------------------- keys tell events apart

  lemma RoleNamesDiffer(a: Role, b: Role)
    requires RoleName(a) == RoleName(b)
    ensures a == b
  {
    assert |Ascii("user")| == 4 && |Ascii("assistant")| == 9 && |Ascii("system")| == 6;
  }

  /** Equal keys mean the same session, index, event and body, or two inputs with one digest. */
  lemma EqualKeysMean(env: Env, s: Bytes, i: nat, event: Bytes, body: Body, t: Bytes, j: nat, other: Bytes, content: Body)
    requires SoundEnv(env)
    requires Fits(KeyParts(s, i, event, env.json(body))) && Fits(KeyParts(t, j, other, env.json(content)))
    requires IngestKey(env, s, i, event, body) == IngestKey(env, t, j, other, content)
    ensures || (s == t && i == j && event == other && body == content)
            || Collision(env, FrameAll(KeyParts(s, i, event, env.json(body))), FrameAll(KeyParts(t, j, other, env.json(content))))
  {
    var p, q := KeyParts(s, i, event, env.json(body)), KeyParts(t, j, other, env.json(content));
    hide FrameAll, Fits;
    if FrameAll(p) == FrameAll(q) {
      FrameInjective(p, q);
      assert p[1] == q[1] && p[2] == q[2] && p[3] == q[3] && p[4] == q[4];
      DecimalRoundTrip(i);
      DecimalRoundTrip(j);
    }
  }

  /** The inputs of two events have one digest. */
  ghost predicate KeysCollide(env: Env, session: Bytes, a: PlannedEvent, b: PlannedEvent) {
    Collision(env, FrameAll(KeyParts(session, a.index, a.event, env.json(a.body))),
              FrameAll(KeyParts(session, b.index, b.event, env.json(b.body))))
  }

  /** Lengths of everything hashed for an event are 64-bit. */
  ghost predicate EventFits(env: Env, session: Bytes, e: PlannedEvent) {
    Fits(KeyParts(session, e.index, e.event, env.json(e.body)))
  }

  /** Events of one session at different places, or with different bodies, have different keys. */
  lemma DifferentKeys(env: Env, session: Bytes, a: PlannedEvent, b: PlannedEvent)
    requires SoundEnv(env) && EventFits(env, session, a) && EventFits(env, session, b)
    requires a == Planned(env, session, a.index, a.event, a.body) && b == Planned(env, session, b.index, b.event, b.body)
    requires a.index != b.index || a.event != b.event || a.body != b.body
    ensures a.key != b.key || KeysCollide(env, session, a, b)
  {
    if a.key == b.key {
      EqualKeysMean(env, session, a.index, a.event, a.body, session, b.index, b.event, b.body);
    }
  }

  lemma EventsShape(env: Env, workspace: Bytes, e: Envelope, k: nat)
    requires k < |e.messages| + 2
    ensures var all, session := Events(env, workspace, e), StableSession(env, workspace, e);
            && |all| == |e.messages| + 2
            && all[k].index == k
            && all[k] == Planned(env, session, k, all[k].event, all[k].body)
            && (k == 0 ==> all[k] == StartEvent(env, workspace, e))
            && (0 < k <= |e.messages| ==> all[k] == MessageEvent(env, session, e.source, k, e.messages[k - 1]))
            && (k == |e.messages| + 1 ==> all[k] == EndEvent(env, workspace, e))
  {
    hide StableSession, IngestKey, Fingerprint;
    var session := StableSession(env, workspace, e);
    var middle := MessageEvents(env, session, e.source, e.messages);
    var all := Events(env, workspace, e);
    assert |middle| == |e.messages|;
    assert 0 < k <= |e.messages| ==> all[k] == middle[k - 1];
  }

  /** Within one plan no two events share a key. */
  lemma KeysDistinct(env: Env, workspace: Bytes, e: Envelope, i: nat, j: nat)
    requires SoundEnv(env) && i < j < |e.messages| + 2 && |Events(env, workspace, e)| == |e.messages| + 2
    requires var all, session := Events(env, workspace, e), StableSession(env, workspace, e);
             EventFits(env, session, all[i]) && EventFits(env, session, all[j])
    ensures var all, session := Events(env, workspace, e), StableSession(env, workspace, e);
            all[i].key != all[j].key || KeysCollide(env, session, all[i], all[j])
  {
    EventsShape(env, workspace, e, i);
    EventsShape(env, workspace, e, j);
    hide Events, StableSession, IngestKey, EventFits;
    DifferentKeys(env, StableSession(env, workspace, e), Events(env, workspace, e)[i], Events(env, workspace, e)[j]);
  }

  // ---------------------------------------------------------- sessions tell conversations apart

  /** The digests of two different inputs start with the same 32 characters. */
  predicate ShortCollision(env: Env, x: Bytes, y: Bytes) {
    x != y && |env.hash(x)| >= 32 && |env.hash(y)| >= 32 && env.hash(x)[..32] == env.hash(y)[..32]
  }

  /** One place and one external conversation. */
  predicate SameConversation(w: Bytes, a: Envelope, v: Bytes, b: Envelope) {
    w == v && a.project == b.project && a.source == b.source && a.sessionId == b.sessionId
  }

  function SessionParts(workspace: Bytes, e: Envelope): seq<Bytes> {
    [Ascii("external-conversation-v1"), workspace, e.project, e.source, e.sessionId]
  }

  lemma SamePrefix(prefix: Bytes, a: Bytes, b: Bytes)
    ensures prefix + a == prefix + b <==> a == b
  {
    assert (prefix + a)[|prefix|..] == a && (prefix + b)[|prefix|..] == b;
  }

  /**
   Two conversations get one session identifier exactly if they are one conversation of one
   workspace, project and source, or the digests of what tells them apart agree in the 32
   characters that are kept.
   */
  lemma EqualSessionsMean(env: Env, w: Bytes, a: Envelope, v: Bytes, b: Envelope)
    requires SoundEnv(env) && Fits(SessionParts(w, a)) && Fits(SessionParts(v, b))
    ensures StableSession(env, w, a) == StableSession(env, v, b)
            <==> SameConversation(w, a, v, b) || ShortCollision(env, FrameAll(SessionParts(w, a)), FrameAll(SessionParts(v, b)))
  {
    var p, q := SessionParts(w, a), SessionParts(v, b);
    assert |env.hash(FrameAll(p))| == 64 && |env.hash(FrameAll(q))| == 64;
    hide FrameAll, Fits, Ascii;
    SamePrefix(Ascii("external-"), env.hash(FrameAll(p))[..32], env.hash(FrameAll(q))[..32]);
    if FrameAll(p) == FrameAll(q) {
      FrameInjective(p, q);
      assert p[1] == q[1] && p[2] == q[2] && p[3] == q[3] && p[4] == q[4];
    } else {
      assert p != q;
    }
  }

  /** An event is delivered under the key of everything it says and where. */
  lemma KeysOfPlans(env: Env, s: Bytes, a: PlannedEvent, t: Bytes, b: PlannedEvent)
    requires SoundEnv(env) && EventFits(env, s, a) && EventFits(env, t, b)
    requires a == Planned(env, s, a.index, a.event, a.body) && b == Planned(env, t, b.index, b.event, b.body)
    requires a.key == b.key
    ensures (s == t && a.index == b.index && a.event == b.event && a.body == b.body) || AcrossCollide(env, s, a, t, b)
  {
    hide IngestKey, EventFits, FrameAll;
    EqualKeysMeanHere(env, s, a, t, b);
  }

  lemma EqualKeysMeanHere(env: Env, s: Bytes, a: PlannedEvent, t: Bytes, b: PlannedEvent)
    requires SoundEnv(env) && EventFits(env, s, a) && EventFits(env, t, b)
    requires IngestKey(env, s, a.index, a.event, a.body) == IngestKey(env, t, b.index, b.event, b.body)
    ensures (s == t && a.index == b.index && a.event == b.event && a.body == b.body) || AcrossCollide(env, s, a, t, b)
  {
    EqualKeysMean(env, s, a.index, a.event, a.body, t, b.index, b.event, b.body);
  }

  /** The inputs of two events of two sessions have one digest. */
  ghost predicate AcrossCollide(env: Env, s: Bytes, a: PlannedEvent, t: Bytes, b: PlannedEvent) {
    Collision(env, FrameAll(KeyParts(s, a.index, a.event, env.json(a.body))),
              FrameAll(KeyParts(t, b.index, b.event, env.json(b.body))))
  }

  /** Lengths of everything hashed for a plan are 64-bit. */
  ghost predicate PlanFits(env: Env, workspace: Bytes, e: Envelope) {
    && Fits(SessionParts(workspace, e))
    && forall x :: x in Events(env, workspace, e) ==> EventFits(env, StableSession(env, workspace, e), x)
  }

  /** Some digest collides between two plans. */
  ghost predicate PlansCollide(env: Env, w: Bytes, a: Envelope, v: Bytes, b: Envelope) {
    || ShortCollision(env, FrameAll(SessionParts(w, a)), FrameAll(SessionParts(v, b)))
    || exists x, y :: x in Events(env, w, a) && y in Events(env, v, b)
                      && AcrossCollide(env, StableSession(env, w, a), x, StableSession(env, v, b), y)
  }

  /** Events of two different conversations never share a key, short of a digest collision. */
  lemma ConversationsKeepApart(env: Env, w: Bytes, a: Envelope, v: Bytes, b: Envelope, i: nat, j: nat)
    requires SoundEnv(env) && PlanFits(env, w, a) && PlanFits(env, v, b) && !SameConversation(w, a, v, b)
    requires i < |Events(env, w, a)| && j < |Events(env, v, b)|
    ensures Events(env, w, a)[i].key != Events(env, v, b)[j].key || PlansCollide(env, w, a, v, b)
  {
    var all, others := Events(env, w, a), Events(env, v, b);
    EqualSessionsMean(env, w, a, v, b);
    EventsCount(env, w, a);
    EventsCount(env, v, b);
    EventsShape(env, w, a, i);
    EventsShape(env, v, b, j);
    hide Events, StableSession, IngestKey, EventFits, FrameAll, SessionParts, Fits, SoundEnv, ShortCollision, AcrossCollide;
    assert all[i] in all && others[j] in others;
    if all[i].key == others[j].key {
      KeysOfPlans(env, StableSession(env, w, a), all[i], StableSession(env, v, b), others[j]);
    }
  }

  lemma EventsCount(env: Env, workspace: Bytes, e: Envelope)
    ensures |Events(env, workspace, e)| == |e.messages| + 2
  {
    hide StartEvent, EndEvent, MessageEvent, StableSession;
  }

  // ---------------------------------------------------------- a plan tells the whole conversation

  /** What a receiver reads back from the bodies of the message events. */
  function ReadMessages(events: seq<PlannedEvent>): seq<Message> {
    if events == [] then []
    else
      ReadMessages(events[..|events| - 1]) +
      match events[|events| - 1].body
      case PromptBody(_, prompt, _, role) => [Message(role, prompt)]
      case MessageBody(_, _, message, _, role) => [Message(role, message)]
      case _ => []
  }

  lemma {:induction false} MessagesReadBack(env: Env, session: Bytes, source: Bytes, messages: seq<Message>)
    ensures ReadMessages(MessageEvents(env, session, source, messages)) == messages
    decreases |messages|
  {
    hide IngestKey;
    if messages != [] {
      var n := |messages| - 1;
      var events := MessageEvents(env, session, source, messages);
      MessagesReadBack(env, session, source, messages[..n]);
      assert events[..n] == MessageEvents(env, session, source, messages[..n]);
      assert messages == messages[..n] + [messages[n]];
    }
  }

  /** The names the receiver knows an event by. */
  predicate NamedFor(event: Bytes, role: Role) {
    event == Ascii(match role case User => "user-prompt" case Assistant => "external.assistant-message" case System => "external.system-message")
  }

  /**
   The events of a plan are numbered from zero, open with "session-start" and end with
   "session-end" under the external identifier, carry one session and source throughout and
   every message in between, in order, to the letter and under the event of its role.
   */
  lemma PlanReadsBack(env: Env, workspace: Bytes, e: Envelope)
    ensures var all, session, n := Events(env, workspace, e), StableSession(env, workspace, e), |e.messages|;
            && |all| == n + 2
            && (forall k :: 0 <= k < n + 2 ==> all[k].index == k)
            && all[0].event == Ascii("session-start") && all[0].body == StartBody(session, e.source, e.sessionId)
            && all[n + 1].event == Ascii("session-end")
            && all[n + 1].body == EndBody(session, e.source, e.sessionId, Fingerprint(env, e))
            && ReadMessages(all[1..n + 1]) == e.messages
            && (forall k :: 0 < k <= n ==> NamedFor(all[k].event, e.messages[k - 1].role) && all[k].body.session == session
                                           && all[k].body.source == e.source)
            && (forall k :: 0 < k <= n ==> (all[k].body.PromptBody? <==> e.messages[k - 1].role.User?))
  {
    hide StableSession, IngestKey, Fingerprint;
    var all, session, n := Events(env, workspace, e), StableSession(env, workspace, e), |e.messages|;
    EventsCount(env, workspace, e);
    forall k | 0 <= k < n + 2
      ensures all[k].index == k
      ensures 0 < k <= n ==> all[k] == MessageEvent(env, session, e.source, k, e.messages[k - 1])
      ensures k == 0 ==> all[k] == StartEvent(env, workspace, e)
      ensures k == n + 1 ==> all[k] == EndEvent(env, workspace, e)
    {
      EventsShape(env, workspace, e, k);
    }
    assert all[1..n + 1] == MessageEvents(env, session, e.source, e.messages);
    MessagesReadBack(env, session, e.source, e.messages);
  }

  // ---------------------------------------------------------- transcripts

  lemma {:induction false} MessagePartsDecode(a: seq<Message>, b: seq<Message>)
    requires MessageParts(a) == MessageParts(b)
    ensures a == b
  {
    hide RoleName;
    if a != [] && b != [] {
      var p, q := MessageParts(a), MessageParts(b);
      assert p[0] == RoleName(a[0].role) && q[0] == RoleName(b[0].role);
      assert p[1] == a[0].content && q[1] == b[0].content;
      assert p[2..] == MessageParts(a[1..]) && q[2..] == MessageParts(b[1..]);
      RoleNamesDiffer(a[0].role, b[0].role);
      MessagePartsDecode(a[1..], b[1..]);
      assert a == [a[0]] + a[1..] && b == [b[0]] + b[1..];
    }
  }

  /** The bytes behind a fingerprint decode to one conversation only. */
  lemma EqualFingerprintsMean(env: Env, a: Envelope, b: Envelope)
    requires Fits(TranscriptParts(a)) && Fits(TranscriptParts(b))
    requires Fingerprint(env, a) == Fingerprint(env, b)
    ensures a == b || Collision(env, FrameAll(TranscriptParts(a)), FrameAll(TranscriptParts(b)))
  {
    hide FrameAll, Fits, MessageParts;
    var p, q := TranscriptParts(a), TranscriptParts(b);
    if FrameAll(p) == FrameAll(q) {
      FrameInjective(p, q);
      assert p[1] == q[1] && p[2] == q[2] && p[3] == q[3];
      assert p[4..] == MessageParts(a.messages) && q[4..] == MessageParts(b.messages);
      MessagePartsDecode(a.messages, b.messages);
    }
  }

  /** A transcript with more messages at its end. */
  function Extended(e: Envelope, more: seq<Message>): Envelope {
    e.(messages := e.messages + more)
  }

  /** A longer transcript keeps the start and every shared message, key and all. */
  lemma ExtensionKeeps(env: Env, workspace: Bytes, e: Envelope, more: seq<Message>)
    ensures var short, long := Events(env, workspace, e), Events(env, workspace, Extended(e, more));
            |short| == |e.messages| + 2 && |long| == |short| + |more| && short[..|short| - 1] == long[..|short| - 1]
  {
    var f := Extended(e, more);
    var short, long := Events(env, workspace, e), Events(env, workspace, f);
    EventsShape(env, workspace, e, 0);
    EventsShape(env, workspace, f, 0);
    assert StableSession(env, workspace, e) == StableSession(env, workspace, f);
    forall k | 0 <= k < |short| - 1 ensures short[k] == long[k] {
      EventsShape(env, workspace, e, k);
      EventsShape(env, workspace, f, k);
    }
  }

  /** Its session end has a key of its own. */
  lemma ExtensionEndsAnew(env: Env, workspace: Bytes, e: Envelope, more: seq<Message>)
    requires SoundEnv(env) && more != []
    requires EventFits(env, StableSession(env, workspace, e), EndEvent(env, workspace, e))
    requires EventFits(env, StableSession(env, workspace, e), EndEvent(env, workspace, Extended(e, more)))
    ensures || EndEvent(env, workspace, e).key != EndEvent(env, workspace, Extended(e, more)).key
            || KeysCollide(env, StableSession(env, workspace, e), EndEvent(env, workspace, e), EndEvent(env, workspace, Extended(e, more)))
  {
    hide IngestKey, EventFits, Fingerprint;
    DifferentKeys(env, StableSession(env, workspace, e), EndEvent(env, workspace, e), EndEvent(env, workspace, Extended(e, more)));
  }

  // ---------------------------------------------------------- delivering twice

  predicate Known(store: seq<PlannedEvent>, key: Bytes) {
    exists e | e in store :: e.key == key
  }

  /** The receiver keeps the first event under every key. */
  function Deliver(store: seq<PlannedEvent>, events: seq<PlannedEvent>): seq<PlannedEvent>
    decreases |events|
  {
    if events == [] then store
    else Deliver(if Known(store, events[0].key) then store else store + [events[0]], events[1..])
  }

  lemma {:induction false} DeliverKeeps(store: seq<PlannedEvent>, events: seq<PlannedEvent>)
    ensures store <= Deliver(store, events)
    ensures forall e :: e in events ==> Known(Deliver(store, events), e.key)
    decreases |events|
  {
    if events != [] {
      var next := if Known(store, events[0].key) then store else store + [events[0]];
      assert Known(next, events[0].key) by {
        assert !Known(store, events[0].key) ==> events[0] in next;
      }
      DeliverKeeps(next, events[1..]);
      KnownMore(next, Deliver(store, events), events[0].key);
      assert events == [events[0]] + events[1..];
    }
  }

  lemma KnownMore(store: seq<PlannedEvent>, longer: seq<PlannedEvent>, key: Bytes)
    requires Known(store, key) && store <= longer
    ensures Known(longer, key)
  {
    var e :| e in store && e.key == key;
    assert e in longer;
  }

  /** Events whose keys are all known change nothing. */
  lemma {:induction false} NothingNew(store: seq<PlannedEvent>, events: seq<PlannedEvent>)
    requires forall e :: e in events ==> Known(store, e.key)
    ensures Deliver(store, events) == store
    decreases |events|
  {
    hide Known;
    if events != [] {
      assert events[0] in events;
      NothingNew(store, events[1..]);
    }
  }

  lemma {:induction false} DeliverConcat(store: seq<PlannedEvent>, a: seq<PlannedEvent>, b: seq<PlannedEvent>)
    ensures Deliver(store, a + b) == Deliver(Deliver(store, a), b)
    decreases |a|
  {
    if a == [] {
      assert a + b == b;
    } else {
      assert (a + b)[0] == a[0] && (a + b)[1..] == a[1..] + b;
      DeliverConcat(if Known(store, a[0].key) then store else store + [a[0]], a[1..], b);
    }
  }

  /** A run that was cut off after any number of events is completed by running it again. */
  lemma ResumeCompletes(store: seq<PlannedEvent>, events: seq<PlannedEvent>, k: nat)
    requires k <= |events|
    ensures Deliver(Deliver(store, events[..k]), events) == Deliver(store, events)
  {
    var part := Deliver(store, events[..k]);
    DeliverKeeps(store, events[..k]);
    NothingNew(part, events[..k]);
    DeliverConcat(part, events[..k], events[k..]);
    DeliverConcat(store, events[..k], events[k..]);
    assert events == events[..k] + events[k..];
  }

  /** After a transcript was delivered, its longer version adds only what follows the shared messages. */
  lemma ExtensionDeliversTheRest(env: Env, workspace: Bytes, e: Envelope, more: seq<Message>, store: seq<PlannedEvent>)
    ensures var short, long := Events(env, workspace, e), Events(env, workspace, Extended(e, more));
            && |short| - 1 <= |long|
            && Deliver(Deliver(store, short), long) == Deliver(Deliver(store, short), long[|short| - 1..])
  {
    ExtensionKeeps(env, workspace, e, more);
    var short, long := Events(env, workspace, e), Events(env, workspace, Extended(e, more));
    hide Events, Deliver;
    var n := |short| - 1;
    var delivered := Deliver(store, short);
    DeliverKeeps(store, short);
    assert forall x :: x in long[..n] ==> x in short[..n];
    assert forall x :: x in short[..n] ==> x in short;
    NothingNew(delivered, long[..n]);
    DeliverConcat(delivered, long[..n], long[n..]);
    assert long == long[..n] + long[n..];
  }

  /** After two different conversations both are there, short of a digest collision: neither takes the other for known. */
  lemma BothAreDelivered(env: Env, w: Bytes, a: Envelope, v: Bytes, b: Envelope)
    requires SoundEnv(env) && PlanFits(env, w, a) && PlanFits(env, v, b) && !SameConversation(w, a, v, b)
    ensures PlansCollide(env, w, a, v, b)
            || forall y :: y in Events(env, v, b) ==>
                 Known(Deliver(Deliver([], Events(env, w, a)), Events(env, v, b)), y.key)
                 && !Known(Deliver([], Events(env, w, a)), y.key)
  {
    var all, others := Events(env, w, a), Events(env, v, b);
    var store := Deliver([], all);
    hide Events, PlanFits;
    DeliverKeeps(store, others);
    OnlyDelivered([], all);
    if !PlansCollide(env, w, a, v, b) {
      forall y | y in others ensures Known(Deliver(store, others), y.key) && !Known(store, y.key) {
        var j :| 0 <= j < |others| && others[j] == y;
        forall x | x in store ensures x.key != y.key {
          var i :| 0 <= i < |all| && all[i] == x;
          ConversationsKeepApart(env, w, a, v, b, i, j);
        }
      }
    }
  }

  /** Nothing comes into the store but what is sent. */
  lemma {:induction false} OnlyDelivered(store: seq<PlannedEvent>, events: seq<PlannedEvent>)
    ensures forall x :: x in Deliver(store, events) ==> x in store || x in events
    decreases |events|
  {
    if events != [] {
      var next := if Known(store, events[0].key) then store else store + [events[0]];
      OnlyDelivered(next, events[1..]);
    }
  }

  // ---------------------------------------------------------- cutting text

  /** A byte that continues a character. */
  predicate Continues(b: Byte) { 128 <= b < 192 }

  /** `is_char_boundary` */
  predicate Boundary(t: Bytes, i: nat) {
    i == |t| || (i < |t| && !Continues(t[i]))
  }

  function Cut(t: Bytes, end: nat): nat {
    if end == 0 || Boundary(t, end) then end else Cut(t, end - 1)
  }

  /** `truncate_utf8` */
  function Truncated(t: Bytes, cap: nat): (r: Bytes)
    ensures r <= t && |r| <= cap
  {
    if |t| <= cap then t else CutFacts(t, cap); t[..Cut(t, cap)]
  }

  /** The last boundary that is not past the limit. */
  lemma {:induction false} CutFacts(t: Bytes, end: nat)
    requires end <= |t|
    ensures Cut(t, end) <= end && (Cut(t, end) == 0 || Boundary(t, Cut(t, end)))
    ensures forall i :: Cut(t, end) < i <= end ==> !Boundary(t, i)
  {
    if end != 0 && !Boundary(t, end) {
      CutFacts(t, end - 1);
    }
  }

  /** The length a first byte announces. */
  function Announced(b: Byte): nat {
    if b < 128 then 1 else if 192 <= b < 224 then 2 else if 224 <= b < 240 then 3 else if 240 <= b < 248 then 4 else 0
  }

  /** Characters of one to four bytes, each a first byte and its continuations. */
  ghost predicate WellFormed(t: Bytes)
    decreases |t|
  {
    t == [] ||
    (var n := Announced(t[0]);
     1 <= n <= |t| && (forall i :: 1 <= i < n ==> Continues(t[i])) && WellFormed(t[n..]))
  }

  /** A boundary of well-formed text splits it into well-formed halves. */
  lemma {:induction false} BoundarySplits(t: Bytes, i: nat)
    requires WellFormed(t) && i <= |t| && Boundary(t, i)
    ensures WellFormed(t[..i])
    decreases |t|
  {
    if i > 0 {
      var n := Announced(t[0]);
      assert forall k :: 1 <= k < n ==> !Boundary(t, k);
      assert i < |t| ==> t[n..][i - n] == t[i];
      BoundarySplits(t[n..], i - n);
      assert t[..i][n..] == t[n..][..i - n];
      assert forall k :: 1 <= k < n ==> t[..i][k] == t[k];
    }
  }

  /** Truncating never cuts a character and drops at most what one more character would need. */
  lemma TruncatedKeepsCharacters(t: Bytes, cap: nat)
    requires WellFormed(t)
    ensures WellFormed(Truncated(t, cap))
    ensures |t| > cap ==> forall i :: |Truncated(t, cap)| < i <= cap ==> !Boundary(t, i)
  {
    if |t| > cap {
      CutFacts(t, cap);
      if Cut(t, cap) > 0 {
        BoundarySplits(t, Cut(t, cap));
      }
    }
  }

  // ---------------------------------------------------------- preparing a conversation

  datatype Refusal =
    | BadWorkspace | NotAFile | FileTooLarge | NotAnEnvelope | BadProject | BadSource | BadSessionId
    | NoMessages | TooManyMessages | TooLarge | EmptyMessage(index: nat) | NoUserMessage | BadServerUrl

  datatype Prepared = Ready(messages: seq<Message>, truncated: nat) | Refused(why: Refusal)

  /** UTF-8 of U+0000 to U+001F, U+007F, or U+0080 to U+009F at `i`. */
  predicate ControlAt(t: Bytes, i: nat)
    requires i < |t|
  {
    t[i] < 32 || t[i] == 127 || (t[i] == 0xC2 && i + 1 < |t| && 128 <= t[i + 1] < 160)
  }

  const SLASH: Byte := 47
  const BACKSLASH: Byte := 92

  /** `validate_label`: trimmed, not empty, within the limit, without control characters or path separators. */
  function Label(env: Env, value: Bytes, limit: nat): Option<Bytes> {
    var trimmed := env.trim(value);
    if trimmed == [] || |trimmed| > limit then None
    else if exists i :: 0 <= i < |trimmed| && (ControlAt(trimmed, i) || trimmed[i] in {SLASH, BACKSLASH}) then None
    else Some(trimmed)
  }

  /** An ASCII letter or digit, '.', '_', '-' or ':'. */
  predicate SourceByte(b: Byte) {
    48 <= b <= 58 || 65 <= b <= 90 || 97 <= b <= 122 || b in {45, 46, 95}
  }

  /** `validate_source_name`: a label of at most 64 identifier bytes. */
  function SourceName(env: Env, value: Bytes): Option<Bytes> {
    match Label(env, value, 64)
    case None => None
    case Some(source) => if forall b | b in source :: SourceByte(b) then Some(source) else None
  }

  /** The three labels of an envelope, each checked and trimmed. */
  predicate LabelsHold(env: Env, e: Envelope) {
    Label(env, e.project, 128).Some? && SourceName(env, e.source).Some? && Label(env, e.sessionId, 256).Some?
  }

  function Trimmed(env: Env, e: Envelope): Envelope {
    e.(project := env.trim(e.project), source := env.trim(e.source), sessionId := env.trim(e.sessionId))
  }

  function Cap(role: Role): nat {
    if role.User? then MAX_USER_MESSAGE_BYTES else MAX_EXTENSION_MESSAGE_BYTES
  }

  /** A message as it is sent: redacted, then cut to the limit of its role. */
  function Sent(env: Env, m: Message): Message {
    Message(m.role, Truncated(env.sanitize(m.content), Cap(m.role)))
  }

  function SentAll(env: Env, messages: seq<Message>): seq<Message> {
    seq(|messages|, i requires 0 <= i < |messages| => Sent(env, messages[i]))
  }

  function TotalBytes(messages: seq<Message>): nat {
    if messages == [] then 0 else TotalBytes(messages[..|messages| - 1]) + |messages[|messages| - 1].content|
  }

  /** What stops the preparation at message `i`. */
  predicate StopsAt(env: Env, messages: seq<Message>, i: nat)
    requires i < |messages|
  {
    TotalBytes(messages[..i + 1]) > MAX_CONVERSATION_TOTAL_BYTES || env.trim(Sent(env, messages[i]).content) == []
  }

  predicate AnyUser(messages: seq<Message>) {
    exists m | m in messages :: m.role.User?
  }

  /**
   What is sent of a message: its role, and its content redacted and then, if that is longer
   than 16 KiB for a user and 2000 bytes for anyone else, its longest beginning within the
   limit that ends between two characters.
   */
  lemma SentMeans(env: Env, m: Message)
    ensures var redacted, sent := env.sanitize(m.content), Sent(env, m);
            var limit := if m.role == User then 16384 else 2000;
            && sent.role == m.role
            && (|redacted| <= limit ==> sent.content == redacted)
            && (|redacted| > limit ==>
                  && sent.content <= redacted && |sent.content| <= limit
                  && (sent.content == [] || Boundary(redacted, |sent.content|))
                  && forall i :: |sent.content| < i <= limit ==> !Boundary(redacted, i))
  {
    var redacted := env.sanitize(m.content);
    if |redacted| > Cap(m.role) {
      CutFacts(redacted, Cap(m.role));
    }
  }

  lemma {:induction false} TotalGrows(messages: seq<Message>, i: nat)
    requires i <= |messages|
    ensures TotalBytes(messages[..i]) <= TotalBytes(messages)
  {
    if i < |messages| {
      var init := messages[..|messages| - 1];
      TotalGrows(init, i);
      assert init[..i] == messages[..i];
    } else {
      assert messages[..i] == messages;
    }
  }

  lemma NoneStops(env: Env, messages: seq<Message>)
    requires messages != []
    ensures (forall i :: 0 <= i < |messages| ==> !StopsAt(env, messages, i))
            <==> TotalBytes(messages) <= 1048576 && forall i :: 0 <= i < |messages| ==> env.trim(Sent(env, messages[i]).content) != []
  {
    hide Sent, TotalBytes;
    forall i | 0 <= i < |messages|
      ensures StopsAt(env, messages, i) ==> TotalBytes(messages) > 1048576 || env.trim(Sent(env, messages[i]).content) == []
      ensures env.trim(Sent(env, messages[i]).content) == [] ==> StopsAt(env, messages, i)
    {
      TotalGrows(messages, i + 1);
    }
    var n := |messages|;
    assert messages[..n - 1 + 1] == messages;
    assert !StopsAt(env, messages, n - 1) ==> TotalBytes(messages) <= 1048576;
  }

  /**
   A conversation is acceptable exactly if it has 1 to 128 messages, at most 1 MiB of content
   before redaction, a user message, and none that is blank as it is sent.
   */
  lemma AcceptableIff(env: Env, messages: seq<Message>)
    ensures Acceptable(env, messages)
            <==> && 1 <= |messages| <= 128 && TotalBytes(messages) <= 1048576
                 && (exists m :: m in messages && m.role == User)
                 && forall i :: 0 <= i < |messages| ==> env.trim(Sent(env, messages[i]).content) != []
  {
    if messages != [] {
      NoneStops(env, messages);
    }
    hide Sent, StopsAt, TotalBytes;
  }

  /**
   A label is taken exactly if, trimmed, it is not empty, not too long, and holds no byte of
   a control character, no slash and no backslash; it is then used trimmed.
   */
  lemma LabelIff(env: Env, value: Bytes, limit: nat)
    ensures var t := env.trim(value);
            && (Label(env, value, limit).Some? <==>
                  && 0 < |t| <= limit
                  && (forall b: Byte :: b in t ==> 0x20 <= b && b != 0x7f && b != 0x2f && b != 0x5c)
                  && (forall i :: 0 <= i < |t| - 1 && t[i] == 0xc2 ==> !(0x80 <= t[i + 1] < 0xa0)))
            && (Label(env, value, limit).Some? ==> Label(env, value, limit) == Some(t))
  {
    var t := env.trim(value);
    if forall i :: 0 <= i < |t| ==> !(ControlAt(t, i) || t[i] in {SLASH, BACKSLASH}) {
      forall b: Byte | b in t ensures 0x20 <= b && b != 0x7f && b != 0x2f && b != 0x5c {
        var i :| 0 <= i < |t| && t[i] == b;
        assert !ControlAt(t, i);
      }
      forall i | 0 <= i < |t| - 1 && t[i] == 0xc2 ensures !(0x80 <= t[i + 1] < 0xa0) {
        assert !ControlAt(t, i);
      }
    }
    if Label(env, value, limit).None? && 0 < |t| <= limit {
      var i :| 0 <= i < |t| && (ControlAt(t, i) || t[i] in {SLASH, BACKSLASH});
      assert t[i] in t;
    }
  }

  /** A source name is a label of at most 64 bytes, all letters, digits, '.', '_', '-' or ':'. */
  lemma SourceNameIff(env: Env, value: Bytes)
    ensures var t := env.trim(value);
            SourceName(env, value) == Some(t)
            <==> 0 < |t| <= 64 && forall b: Byte :: b in t ==>
                   0x30 <= b <= 0x39 || 0x41 <= b <= 0x5a || 0x61 <= b <= 0x7a || b == 0x2e || b == 0x5f || b == 0x2d || b == 0x3a
  {
    LabelIff(env, value, 64);
    hide Label;
    var t := env.trim(value);
    assert forall i :: 0 <= i < |t| ==> t[i] in t;
  }

  /** How many messages are longer than their limit once redacted. */
  function CutCount(env: Env, messages: seq<Message>): nat {
    if messages == [] then 0
    else
      var m := messages[|messages| - 1];
      CutCount(env, messages[..|messages| - 1]) + if |env.sanitize(m.content)| > Cap(m.role) then 1 else 0
  }

  /** Within every limit, with a user message and no empty one. */
  predicate Acceptable(env: Env, messages: seq<Message>) {
    && 0 < |messages| <= MAX_CONVERSATION_MESSAGES && AnyUser(messages)
    && forall i :: 0 <= i < |messages| ==> !StopsAt(env, messages, i)
  }

  /** What one more message adds. */
  lemma OneMore(env: Env, messages: seq<Message>, i: nat)
    requires i < |messages|
    ensures SentAll(env, messages[..i + 1]) == SentAll(env, messages[..i]) + [Sent(env, messages[i])]
    ensures TotalBytes(messages[..i + 1]) == TotalBytes(messages[..i]) + |messages[i].content|
    ensures AnyUser(messages[..i + 1]) <==> AnyUser(messages[..i]) || messages[i].role.User?
    ensures CutCount(env, messages[..i + 1])
            == CutCount(env, messages[..i]) + if |env.sanitize(messages[i].content)| > Cap(messages[i].role) then 1 else 0
  {
    hide Sent, Cap;
    var shorter, longer := messages[..i], messages[..i + 1];
    assert longer == shorter + [messages[i]] && longer[..i] == shorter;
    assert AnyUser(shorter) ==> exists m | m in shorter :: m.role.User? && m in longer;
    assert messages[i] in longer;
  }

  /** Check the limits and prepare every message in place, or refuse at the first that breaks one. */
  method Prepare(env: Env, messages: seq<Message>) returns (r: Prepared)
    ensures r.Ready? <==> Acceptable(env, messages)
    ensures r.Ready? ==> r.messages == SentAll(env, messages) && r.truncated == CutCount(env, messages)
    ensures r.Refused? && r.why.EmptyMessage? ==>
              r.why.index < |messages| && env.trim(Sent(env, messages[r.why.index]).content) == []
  {
    hide SentAll, CutCount, TotalBytes, AnyUser, Truncated;
    if messages == [] {
      return Refused(NoMessages);
    }
    if |messages| > MAX_CONVERSATION_MESSAGES {
      return Refused(TooManyMessages);
    }
    var prepared: seq<Message> := [];
    var total, users, truncated := 0, 0, 0;
    NoneYet(env, messages);
    for i := 0 to |messages|
      invariant prepared == SentAll(env, messages[..i])
      invariant total == TotalBytes(messages[..i])
      invariant truncated == CutCount(env, messages[..i])
      invariant users > 0 <==> AnyUser(messages[..i])
      invariant forall j :: 0 <= j < i ==> !StopsAt(env, messages, j)
    {
      OneMore(env, messages, i);
      var message := messages[i];
      total := total + |message.content|;
      if total > MAX_CONVERSATION_TOTAL_BYTES {
        assert StopsAt(env, messages, i);
        return Refused(TooLarge);
      }
      message := message.(content := env.sanitize(message.content));
      if |message.content| > Cap(message.role) {
        message := message.(content := Truncated(message.content, Cap(message.role)));
        truncated := truncated + 1;
      } else {
        WithinLimit(message.content, Cap(message.role));
      }
      assert message == Sent(env, messages[i]);
      if env.trim(message.content) == [] {
        assert StopsAt(env, messages, i);
        return Refused(EmptyMessage(i));
      }
      if message.role.User? {
        users := users + 1;
      }
      prepared := prepared + [message];
    }
    assert messages[..|messages|] == messages;
    if users == 0 {
      return Refused(NoUserMessage);
    }
    return Ready(prepared, truncated);
  }

  lemma NoneYet(env: Env, messages: seq<Message>)
    ensures SentAll(env, messages[..0]) == [] && TotalBytes(messages[..0]) == 0
    ensures CutCount(env, messages[..0]) == 0 && !AnyUser(messages[..0])
  {
  }

  lemma WithinLimit(t: Bytes, limit: nat)
    requires |t| <= limit
    ensures Truncated(t, limit) == t
  {
  }

  // ---------------------------------------------------------- hashing and planning as they run

  /** A running SHA-256: what it was fed so far. */
  class Hasher {
    var fed: Bytes

    constructor ()
      ensures fed == []
    {
      fed := [];
    }

    method Update(data: Bytes)
      modifies this
      ensures fed == old(fed) + data
    {
      fed := fed + data;
    }

    method HashPart(part: Bytes)
      modifies this
      ensures fed == old(fed) + Frame(part)
    {
      Update(LittleEndian(|part|, 8));
      Update(part);
      Associative(old(fed), LittleEndian(|part|, 8), part);
    }
  }

  method Sha256Parts(env: Env, parts: seq<Bytes>) returns (digest: Bytes)
    ensures digest == Digest(env, parts)
  {
    hide Frame;
    var hasher := new Hasher();
    assert parts[..0] == [];
    for i := 0 to |parts|
      invariant hasher.fed == FrameAll(parts[..i])
    {
      assert parts[..i + 1] == parts[..i] + [parts[i]];
      FrameMore(parts[..i], parts[i]);
      hasher.HashPart(parts[i]);
    }
    assert parts[..|parts|] == parts;
    digest := env.hash(hasher.fed);
  }

  lemma {:induction false} MessagePartsMore(messages: seq<Message>, m: Message)
    ensures MessageParts(messages + [m]) == MessageParts(messages) + [RoleName(m.role), m.content]
  {
    hide RoleName;
    var longer := messages + [m];
    if messages == [] {
      assert longer == [m] && MessageParts(longer[1..]) == [];
    } else {
      MessagePartsMore(messages[1..], m);
      assert longer[0] == messages[0] && longer[1..] == messages[1..] + [m];
      Associative([RoleName(messages[0].role), messages[0].content], MessageParts(messages[1..]), [RoleName(m.role), m.content]);
    }
  }

  method ConversationFingerprint(env: Env, e: Envelope) returns (digest: Bytes)
    ensures digest == Fingerprint(env, e)
  {
    hide Frame, RoleName;
    var hasher := new Hasher();
    hasher.HashPart(VERSION);
    hasher.HashPart(e.project);
    hasher.HashPart(e.source);
    hasher.HashPart(e.sessionId);
    ghost var head := [VERSION, e.project, e.source, e.sessionId];
    FourFrames(VERSION, e.project, e.source, e.sessionId);
    assert head + MessageParts(e.messages[..0]) == head;
    for i := 0 to |e.messages|
      invariant hasher.fed == FrameAll(head + MessageParts(e.messages[..i]))
    {
      var message := e.messages[i];
      ghost var parts := head + MessageParts(e.messages[..i]);
      assert e.messages[..i + 1] == e.messages[..i] + [message];
      MessagePartsMore(e.messages[..i], message);
      FrameMore(parts, RoleName(message.role));
      FrameMore(parts + [RoleName(message.role)], message.content);
      assert head + MessageParts(e.messages[..i + 1]) == parts + [RoleName(message.role)] + [message.content];
      hasher.HashPart(RoleName(message.role));
      hasher.HashPart(message.content);
    }
    assert e.messages[..|e.messages|] == e.messages;
    digest := env.hash(hasher.fed);
  }

  lemma FourFrames(a: Bytes, b: Bytes, c: Bytes, d: Bytes)
    ensures FrameAll([a, b, c, d]) == [] + Frame(a) + Frame(b) + Frame(c) + Frame(d)
  {
    hide Frame;
    assert FrameAll([]) == [];
    FrameMore([], a);
    FrameMore([a], b);
    FrameMore([a, b], c);
    FrameMore([a, b, c], d);
    assert [] + [a] == [a] && [a] + [b] == [a, b] && [a, b] + [c] == [a, b, c] && [a, b, c] + [d] == [a, b, c, d];
  }

  datatype Plan =
    | Planning(source: Bytes, session: Bytes, transcript: Bytes, truncated: nat, events: seq<PlannedEvent>)
    | NotPlanned(why: Refusal)

  lemma MessageEventsMore(env: Env, session: Bytes, source: Bytes, messages: seq<Message>, i: nat)
    requires i < |messages|
    ensures MessageEvents(env, session, source, messages[..i + 1])
            == MessageEvents(env, session, source, messages[..i]) + [MessageEvent(env, session, source, i + 1, messages[i])]
  {
    hide MessageEvent;
  }

  /** The events of a prepared conversation: its start, its messages in order, its end. */
  method PlanEvents(env: Env, workspace: Bytes, e: Envelope) returns (session: Bytes, transcript: Bytes, events: seq<PlannedEvent>)
    ensures session == StableSession(env, workspace, e) && transcript == Fingerprint(env, e)
    ensures events == Events(env, workspace, e)
  {
    hide Fingerprint, IngestKey, MessageEvent;
    session := StableSession(env, workspace, e);
    hide StableSession;
    transcript := ConversationFingerprint(env, e);
    events := [Planned(env, session, 0, Ascii("session-start"), StartBody(session, e.source, e.sessionId))];
    assert events == [StartEvent(env, workspace, e)];
    hide MessageEvents;
    NoMessageEvents(env, session, e);
    for i := 0 to |e.messages|
      invariant events == [StartEvent(env, workspace, e)] + MessageEvents(env, session, e.source, e.messages[..i])
    {
      MessageEventsMore(env, session, e.source, e.messages, i);
      events := events + [MessageEvent(env, session, e.source, i + 1, e.messages[i])];
    }
    assert e.messages[..|e.messages|] == e.messages;
    events := events
      + [Planned(env, session, |e.messages| + 1, Ascii("session-end"), EndBody(session, e.source, e.sessionId, transcript))];
  }

  lemma NoMessageEvents(env: Env, session: Bytes, e: Envelope)
    ensures MessageEvents(env, session, e.source, e.messages[..0]) == []
  {
  }

  /** The conversation a file holds, if the file and everything in it is acceptable; `file` is None for what is not a regular file. */
  ghost predicate Importable(env: Env, workspace: Bytes, file: Option<Bytes>, serverUrl: Bytes) {
    && Label(env, workspace, 128).Some?
    && file.Some? && |file.value| <= MAX_CONVERSATION_FILE_BYTES
    && env.parse(file.value).Some?
    && LabelsHold(env, env.parse(file.value).value)
    && Acceptable(env, env.parse(file.value).value.messages)
    && env.isUrl(serverUrl)
  }

  /** The envelope as it is sent: labels trimmed, messages redacted and cut. */
  function SentEnvelope(env: Env, e: Envelope): Envelope {
    Trimmed(env, e).(messages := SentAll(env, e.messages))
  }

  /** The envelope sent has the labels trimmed and every message as it is sent, in order. */
  lemma SentEnvelopeMeans(env: Env, e: Envelope)
    ensures var s := SentEnvelope(env, e);
            && s.project == env.trim(e.project) && s.source == env.trim(e.source) && s.sessionId == env.trim(e.sessionId)
            && |s.messages| == |e.messages| && forall i :: 0 <= i < |e.messages| ==> s.messages[i] == Sent(env, e.messages[i])
  {
  }

  /** Plan the replay of a conversation file; the workspace is checked but used as it was given. */
  method PlanExternalConversation(env: Env, workspace: Bytes, file: Option<Bytes>, serverUrl: Bytes) returns (plan: Plan)
    ensures plan.Planning? <==> Importable(env, workspace, file, serverUrl)
    ensures plan.Planning? ==>
              var read := env.parse(file.value).value;
              var sent := SentEnvelope(env, read);
              && plan.source == env.hash(file.value)
              && plan.session == StableSession(env, workspace, sent)
              && plan.transcript == Fingerprint(env, sent)
              && plan.truncated == CutCount(env, read.messages)
              && plan.events == Events(env, workspace, sent)
  {
    hide Acceptable, Sent, SentAll, Events, Fingerprint, StableSession, CutCount;
    if Label(env, workspace, 128).None? {
      return NotPlanned(BadWorkspace);
    }
    if file.None? {
      return NotPlanned(NotAFile);
    }
    if |file.value| > MAX_CONVERSATION_FILE_BYTES {
      return NotPlanned(FileTooLarge);
    }
    var parsed := env.parse(file.value);
    if parsed.None? {
      return NotPlanned(NotAnEnvelope);
    }
    var envelope := parsed.value;
    var project := Label(env, envelope.project, 128);
    if project.None? {
      return NotPlanned(BadProject);
    }
    var source := SourceName(env, envelope.source);
    if source.None? {
      return NotPlanned(BadSource);
    }
    var sessionId := Label(env, envelope.sessionId, 256);
    if sessionId.None? {
      return NotPlanned(BadSessionId);
    }
    envelope := envelope.(project := project.value, source := source.value, sessionId := sessionId.value);
    assert envelope == Trimmed(env, parsed.value);
    hide Label, SourceName;
    var prepared := Prepare(env, envelope.messages);
    if prepared.Refused? {
      return NotPlanned(prepared.why);
    }
    envelope := envelope.(messages := prepared.messages);
    if !env.isUrl(serverUrl) {
      return NotPlanned(BadServerUrl);
    }
    var session, transcript, events := PlanEvents(env, workspace, envelope);
    return Planning(env.hash(file.value), session, transcript, prepared.truncated, events);
  }

  /** Lengths of everything a planned envelope holds are small; only the JSON of an event is not bounded by the checks. */
  lemma ImportableFits(env: Env, workspace: Bytes, file: Option<Bytes>, serverUrl: Bytes)
    requires Importable(env, workspace, file, serverUrl)
    ensures Fits(TranscriptParts(SentEnvelope(env, env.parse(file.value).value)))
  {
    var e := env.parse(file.value).value;
    var sent := SentEnvelope(env, e);
    PowerFacts();
    assert |sent.project| <= 128 && |sent.source| <= 64 && |sent.sessionId| <= 256;
    assert forall i :: 0 <= i < |e.messages| ==> |Sent(env, e.messages[i]).content| <= MAX_USER_MESSAGE_BYTES by {
      forall i | 0 <= i < |e.messages| ensures |Sent(env, e.messages[i]).content| <= MAX_USER_MESSAGE_BYTES {
        TruncatedWithin(env.sanitize(e.messages[i].content), Cap(e.messages[i].role));
      }
    }
    MessagePartsWithin(sent.messages);
    hide Label, SourceName, Acceptable, Sent, MessageParts, Power256, Ascii;
    assert |VERSION| == 24 by {
      VersionLength();
    }
  }

  lemma VersionLength()
    ensures |VERSION| == 24
  {
  }

  lemma PowerFacts()
    ensures Power256(8) == 0x1_0000_0000_0000_0000
  {
    assert Power256(4) == 0x1_0000_0000;
  }

  lemma TruncatedWithin(t: Bytes, limit: nat)
    ensures |Truncated(t, limit)| <= limit
  {
    if |t| > limit {
      CutFacts(t, limit);
    }
  }

  lemma {:induction false} MessagePartsWithin(messages: seq<Message>)
    requires forall i :: 0 <= i < |messages| ==> |messages[i].content| <= MAX_USER_MESSAGE_BYTES
    ensures forall i :: 0 <= i < |MessageParts(messages)| ==> |MessageParts(messages)[i]| <= MAX_USER_MESSAGE_BYTES
  {
    if messages != [] {
      MessagePartsWithin(messages[1..]);
      assert |RoleName(messages[0].role)| <= 9;
    }
  }

  /**
   Two acceptable files whose transcripts have one fingerprint hold, once trimmed, redacted
   and cut, the same conversation, or their fingerprints are a digest collision.
   */
  lemma SameTranscriptMeans(env: Env, workspace: Bytes, a: Option<Bytes>, b: Option<Bytes>, serverUrl: Bytes)
    requires Importable(env, workspace, a, serverUrl) && Importable(env, workspace, b, serverUrl)
    ensures var x, y := SentEnvelope(env, env.parse(a.value).value), SentEnvelope(env, env.parse(b.value).value);
            Fingerprint(env, x) == Fingerprint(env, y) <==>
              x == y || Collision(env, FrameAll(TranscriptParts(x)), FrameAll(TranscriptParts(y)))
  {
    ImportableFits(env, workspace, a, serverUrl);
    ImportableFits(env, workspace, b, serverUrl);
    hide SentEnvelope, Fits, Importable;
    var x, y := SentEnvelope(env, env.parse(a.value).value), SentEnvelope(env, env.parse(b.value).value);
    if Fingerprint(env, x) == Fingerprint(env, y) {
      EqualFingerprintsMean(env, x, y);
    }
  }

  /** A later run over a longer transcript plans the same start and the same shared messages, keys included. */
  lemma RerunSendsSameKeys(env: Env, workspace: Bytes, e: Envelope, more: seq<Message>)
    ensures var first := Events(env, workspace, e.(messages := SentAll(env, e.messages)));
            var second := Events(env, workspace, e.(messages := SentAll(env, e.messages + more)));
            && |first| == |e.messages| + 2 && |second| == |first| + |more|
            && second[..|first| - 1] == first[..|first| - 1]
  {
    hide Sent, Events;
    var sent := e.(messages := SentAll(env, e.messages));
    assert SentAll(env, e.messages + more) == SentAll(env, e.messages) + SentAll(env, more);
    assert e.(messages := SentAll(env, e.messages + more)) == Extended(sent, SentAll(env, more));
    ExtensionKeeps(env, workspace, sent, SentAll(env, more));
  }
}
