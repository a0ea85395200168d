/** The per-connection session (`wsHandler`, in the handlers package and in
    the server's earlier `main.go`): register, greet, then loop checking the
    shutdown flag, reading a message and either echoing it or running the
    interruptible 30 s slow operation; every exit deregisters and closes the
    connection. Time is in milliseconds; the session is driven by the events
    its environment delivers. */
module Session {
  import opened Common
  import opened Decimal
  import MapRegistry

  const Welcome: string := "WebSocket connection established"
  const EchoPrefix: string := "Echo: "
  const SlowRequest: string := "SLOW_REQUEST"
  const SlowPing: string := "SLOW_PING"
  /** The slow operation's replies start with a tag naming how it ended. */
  const InterruptedTag: string := "SLOW_INTERRUPTED"
  const CompleteTag: string := "SLOW_COMPLETE"
  const InterruptedPrefix: string := InterruptedTag + ": Request interrupted by server shutdown after "
  const CompletePrefix: string := CompleteTag + ": Slow operation completed after 30 seconds at "
  /** The slow operation's ceiling and its ticker interval. */
  const SlowCeilingMs: nat := 30000
  const SlowTickMs: nat := 1000

  /** WebSocket message type; every reply reuses the type of the request. */
  datatype MsgKind = TextMsg | BinaryMsg

  /** What `ReadMessage` returns: a message, or an error (a close frame from
      the peer or the drain, or a broken transport). */
  datatype Inbound = Frame(kind: MsgKind, payload: string) | ReadError

  /** What the environment does next: the shutdown channel is closed, a read
      completes, or time passes. */
  datatype Event = Raise | Arrive(inbound: Inbound) | Elapse(ms: nat)

  datatype Exit =
    | WelcomeFailed
    | ShutdownObserved
    | ReadFailed
    | EchoFailed
    | CompleteFailed
    | Interrupted(reportedMs: nat)
    | Panicked

  /** Reading: blocked in (or about to enter) `ReadMessage`. Slow: inside
      the slow operation, `nowMs` after it started. */
  datatype Phase = Reading | Slow(kind: MsgKind, nowMs: nat) | Ended(exit: Exit)

  datatype Output =
    | Sent(kind: MsgKind, text: string, ok: bool)
    | Deregistered(conn: ConnId)
    | TransportClosed(conn: ConnId)

  /** Fixed facts about the environment: which definition of the message
      classifier runs, which writes (counted from 0, the welcome) fail, and
      the RFC 3339 clock text the completion message carries. */
  datatype Env = Env(variant: Variant, failing: set<nat>, stamp: string)

  /** The session: its connection, the shared registry (whose `shutdown`
      field is the shutdown channel), its phase, the messages that arrived
      while it was busy, how many writes it made and what it emitted. */
  datatype Session = Session(
    conn: ConnId,
    reg: MapRegistry.Registry,
    phase: Phase,
    queue: seq<Inbound>,
    writes: nat,
    out: seq<Output>)

  // ---------------------------------------------------------------------
  // Message classification

  datatype Class = SlowWork | EchoBack | ShortMessage

  /** Bytes in the UTF-8 encoding of one character. */
  function Utf8Width(c: char): (w: nat)
    ensures 1 <= w <= 4
    ensures w == 1 <==> c as int < 0x80
  {
    if c as int < 0x80 then 1
    else if c as int < 0x800 then 2
    else if c as int < 0x1_0000 then 3
    else 4
  }

  /** Bytes in the UTF-8 encoding of a text: what Go's `len` and its slice
      bounds count on a string. */
  function Utf8Len(p: string): (n: nat)
    ensures n >= |p|
  {
    if |p| == 0 then 0 else Utf8Width(p[0]) + Utf8Len(p[1..])
  }

  /** A text of ASCII characters has one byte per character. */
  lemma {:induction false} AsciiLen(p: string)
    requires forall i :: 0 <= i < |p| ==> p[i] as int < 0x80
    ensures Utf8Len(p) == |p|
  {
    if |p| > 0 {
      assert forall i :: 0 <= i < |p| - 1 ==> p[1..][i] == p[i + 1];
      AsciiLen(p[1..]);
    }
  }

  /** The test `string(message) == "SLOW_REQUEST" || string(message)[:9] ==
      "SLOW_PING"`: the slice expression panics on any other message shorter
      than 9 bytes. Every character outside ASCII encodes to bytes of 0x80
      and above, so the first 9 bytes spell "SLOW_PING" exactly when the
      first 9 characters do. */
  function ClassifyAsWritten(p: string): (c: Class)
    ensures c == SlowWork <==> p == SlowRequest || HasPrefix(p, SlowPing)
    ensures c == ShortMessage <==> p != SlowRequest && Utf8Len(p) < |SlowPing|
  {
    if p == SlowRequest then SlowWork
    else if Utf8Len(p) < |SlowPing| then ShortMessage
    else if HasPrefix(p, SlowPing) then SlowWork
    else EchoBack
  }

  /** Length is counted in bytes: five two-byte characters are long enough
      to be echoed, though they are fewer than nine characters. */
  lemma ClassifyCountsBytes()
    ensures ClassifyAsWritten("\U{e9}\U{e9}\U{e9}\U{e9}\U{e9}") == EchoBack
    ensures ClassifyAsWritten("\U{e9}\U{e9}") == ShortMessage
  {
    var e := "\U{e9}\U{e9}\U{e9}\U{e9}\U{e9}";
    assert Utf8Len(e[4..]) == 2;
    assert Utf8Len(e[3..]) == 4;
    assert Utf8Len(e[2..]) == 6;
    assert Utf8Len(e[1..]) == 8;
    assert Utf8Len(e) == 10;
  }

  /** The evident intent: a prefix test that cannot fail. */
  function ClassifyCorrected(p: string): (c: Class)
    ensures c != ShortMessage
    ensures c == SlowWork <==> p == SlowRequest || HasPrefix(p, SlowPing)
  {
    if p == SlowRequest || HasPrefix(p, SlowPing) then SlowWork else EchoBack
  }

  /** The corrected classifier agrees with the source wherever the source
      does not panic. */
  lemma ClassifiersAgree(p: string)
    ensures ClassifyAsWritten(p) != ShortMessage ==> ClassifyCorrected(p) == ClassifyAsWritten(p)
    ensures ClassifyAsWritten(p) == ShortMessage ==> ClassifyCorrected(p) == EchoBack
  {
  }

  function Classify(v: Variant, p: string): Class
  {
    match v
    case AsWritten => ClassifyAsWritten(p)
    case Corrected => ClassifyCorrected(p)
  }

  // ---------------------------------------------------------------------
  // Replies

  /** Elapsed time as the loop last sampled it: whole ticks. */
  function Sampled(nowMs: nat): (r: nat)
    ensures r <= nowMs < r + SlowTickMs
  {
    (nowMs / SlowTickMs) * SlowTickMs
  }

  /** The interruption reply, elapsed seconds printed with "%.1f". */
  function InterruptedText(reportedMs: nat): string
  {
    InterruptedPrefix + FormatTenths(reportedMs / 100) + " seconds"
  }

  function CompleteText(stamp: string): string
  {
    CompletePrefix + stamp
  }

  /** An output is the interruption reply. */
  predicate IsInterrupt(o: Output)
  {
    o.Sent? && HasPrefix(o.text, InterruptedTag)
  }

  /** Only the interruption reply reads as one. */
  lemma ReplyTexts(p: string, stamp: string, reportedMs: nat)
    ensures !HasPrefix(Welcome, InterruptedTag)
    ensures !HasPrefix(EchoPrefix + p, InterruptedTag)
    ensures !HasPrefix(CompleteText(stamp), InterruptedTag)
    ensures HasPrefix(InterruptedText(reportedMs), InterruptedTag)
  {
    assert Welcome[0] == 'W';
    var e := EchoPrefix + p;
    assert e[0] == 'E';
    var c := CompleteText(stamp);
    assert c[5] == CompleteTag[5] == 'C';
    var t := InterruptedText(reportedMs);
    assert t[..|InterruptedTag|] == InterruptedTag;
  }

  // ---------------------------------------------------------------------
  // The state machine

  /** Whether the next write, the session's `writes`-th, succeeds. */
  function WriteOk(s: Session, env: Env): bool
  {
    s.writes !in env.failing
  }

  function Write(s: Session, env: Env, kind: MsgKind, text: string): (r: Session)
    ensures r.out == s.out + [Sent(kind, text, WriteOk(s, env))]
    ensures r.writes == s.writes + 1
    ensures r.conn == s.conn && r.reg == s.reg && r.phase == s.phase && r.queue == s.queue
  {
    s.(writes := s.writes + 1, out := s.out + [Sent(kind, text, WriteOk(s, env))])
  }

  /** `r` is a later state of session `s`: the same connection, outputs only
      appended, the shutdown flag never lowered, and no registration touched
      but the session's own, which can only be removed. */
  predicate Follows(s: Session, r: Session)
  {
    && r.conn == s.conn
    && s.out <= r.out
    && (s.reg.shutdown ==> r.reg.shutdown)
    && r.reg.members <= s.reg.members
    && s.reg.members - {s.conn} <= r.reg.members
  }

  /** The deferred cleanup, run on every exit path including a panic:
      `RemoveConnection` then `Close`. */
  function Finish(s: Session, exit: Exit): (r: Session)
    ensures r.phase == Ended(exit)
    ensures r.out == s.out + [Deregistered(s.conn), TransportClosed(s.conn)]
    ensures r.reg == MapRegistry.Remove(s.reg, s.conn)
    ensures r.conn == s.conn && r.writes == s.writes
  {
    s.(phase := Ended(exit),
       reg := MapRegistry.Remove(s.reg, s.conn),
       out := s.out + [Deregistered(s.conn), TransportClosed(s.conn)])
  }

  /** Reply to an interruption, whether or not the write succeeds, and end. */
  function Interrupt(s: Session, env: Env, kind: MsgKind, reportedMs: nat): (r: Session)
    ensures r.phase == Ended(Interrupted(reportedMs))
    ensures r.out == s.out + [Sent(kind, InterruptedText(reportedMs), WriteOk(s, env)),
                              Deregistered(s.conn), TransportClosed(s.conn)]
    ensures r.conn == s.conn && r.reg == MapRegistry.Remove(s.reg, s.conn)
  {
    Finish(Write(s, env, kind, InterruptedText(reportedMs)), Interrupted(reportedMs))
  }

  /** What holds of a session that has not ended, whatever it is doing: the
      welcome came first, nothing has deregistered it or been sent as an
      interruption reply, and its connection is registered. */
  predicate Unfinished(s: Session, env: Env)
  {
    && |s.out| >= 1 && s.out[0] == Sent(TextMsg, Welcome, 0 !in env.failing)
    && s.writes >= 1
    && (forall i :: 0 <= i < |s.out| ==> !s.out[i].Deregistered? && !IsInterrupt(s.out[i]))
    && s.conn in s.reg.members
  }

  /** The invariant of every reachable session. Running, it is Unfinished,
      and the slow operation never runs past its ceiling nor after shutdown.
      Ended, the connection is no longer registered, the last two outputs
      deregister and close it and nothing before them does, and an
      interruption reply appears only just before those two, and only when
      the session ended interrupted. */
  predicate Valid(s: Session, env: Env)
  {
    match s.phase
    case Reading => Unfinished(s, env)
    case Slow(_, now) => Unfinished(s, env) && now < SlowCeilingMs && !s.reg.shutdown
    case Ended(exit) =>
      var n := |s.out|;
      && n >= 3 && s.conn !in s.reg.members
      && s.out[0] == Sent(TextMsg, Welcome, 0 !in env.failing)
      && s.out[n - 2] == Deregistered(s.conn) && s.out[n - 1] == TransportClosed(s.conn)
      && (forall i :: 0 <= i < n - 2 ==> !s.out[i].Deregistered?)
      && (exit.Interrupted? ==> IsInterrupt(s.out[n - 3]) && exit.reportedMs < SlowCeilingMs)
      && (forall i :: 0 <= i < n - 2 && IsInterrupt(s.out[i]) ==> exit.Interrupted? && i == n - 3)
  }

  /** A running session, about to handle its next read. */
  predicate Running(s: Session, env: Env)
  {
    Valid(s, env) && !s.phase.Ended?
  }

  /** Back at the top of the loop: a raised flag ends the session without a
      further write; otherwise a message that arrived meanwhile is read at
      once, or the session blocks in `ReadMessage`. */
  function LoopTop(s: Session, env: Env): (r: Session)
    ensures Follows(s, r)
    ensures s.reg.shutdown ==> r == Finish(s, ShutdownObserved)
    ensures !s.reg.shutdown && s.queue == [] ==> r == s.(phase := Reading)
    decreases 2 * |s.queue| + 1
  {
    if s.reg.shutdown then Finish(s, ShutdownObserved)
    else if |s.queue| > 0 then Receive(s.(phase := Reading, queue := s.queue[1..]), s.queue[0], env)
    else s.(phase := Reading)
  }

  /** One completed `ReadMessage`. */
  function Receive(s: Session, inbound: Inbound, env: Env): (r: Session)
    ensures Follows(s, r)
    decreases 2 * |s.queue| + 2
  {
    match inbound
    case ReadError => Finish(s, ReadFailed)
    case Frame(kind, p) =>
      match Classify(env.variant, p)
      case ShortMessage => Finish(s, Panicked)
      case EchoBack =>
        var s' := Write(s, env, kind, EchoPrefix + p);
        if !WriteOk(s, env) then Finish(s', EchoFailed) else LoopTop(s', env)
      case SlowWork =>
        if s.reg.shutdown then Interrupt(s, env, kind, 0) else s.(phase := Slow(kind, 0))
  }

  /** The shutdown flag as the channel close leaves it. */
  function Raised(r: MapRegistry.Registry): (r': MapRegistry.Registry)
    ensures r'.members == r.members && r'.shutdown
  {
    MapRegistry.Registry(r.members, true)
  }

  /** The session's response to one event. While reading, the shutdown flag
      does not wake the blocked read and time passing changes nothing. During
      the slow operation, shutdown wins at once and reports the elapsed time
      sampled at the last tick; at the ceiling the completion is sent; a
      message that arrives meanwhile waits for the next read. */
  function Step(s: Session, e: Event, env: Env): (r: Session)
    ensures Follows(s, r)
    ensures s.phase.Ended? ==> r == s
  {
    match s.phase
    case Ended(_) => s
    case Reading =>
      (match e
       case Raise => s.(reg := Raised(s.reg))
       case Arrive(inbound) => Receive(s, inbound, env)
       case Elapse(_) => s)
    case Slow(kind, now) =>
      match e
      case Raise => Interrupt(s.(reg := Raised(s.reg)), env, kind, Sampled(now))
      case Arrive(inbound) => s.(queue := s.queue + [inbound])
      case Elapse(ms) =>
        if now + ms < SlowCeilingMs then s.(phase := Slow(kind, now + ms))
        else
          var s' := Write(s, env, kind, CompleteText(env.stamp));
          if !WriteOk(s, env) then Finish(s', CompleteFailed) else LoopTop(s'.(phase := Reading), env)
  }

  /** Registration and the welcome, then the first check of the flag. */
  function Start(conn: ConnId, reg: MapRegistry.Registry, env: Env): (r: Session)
    ensures r.conn == conn
    ensures |r.out| >= 1 && r.out[0] == Sent(TextMsg, Welcome, 0 !in env.failing)
    ensures r.phase.Ended? <==> 0 in env.failing || reg.shutdown
  {
    var s := Session(conn, MapRegistry.Add(reg, conn), Reading, [], 0, []);
    var s' := Write(s, env, TextMsg, Welcome);
    if !WriteOk(s, env) then Finish(s', WelcomeFailed) else LoopTop(s', env)
  }

  function Run(s: Session, events: seq<Event>, env: Env): Session
    decreases |events|
  {
    if |events| == 0 then s else Run(Step(s, events[0], env), events[1..], env)
  }

  /** A whole session: a new connection registered in `reg`, then `events`. */
  function Open(conn: ConnId, reg: MapRegistry.Registry, events: seq<Event>, env: Env): Session
  {
    Run(Start(conn, reg, env), events, env)
  }

  // ---------------------------------------------------------------------
  // The invariant is kept

  lemma WriteKeeps(s: Session, env: Env, kind: MsgKind, text: string)
    requires Unfinished(s, env) && !HasPrefix(text, InterruptedTag)
    ensures Unfinished(Write(s, env, kind, text), env)
  {
    var r := Write(s, env, kind, text);
    assert forall i :: 0 <= i < |s.out| ==> r.out[i] == s.out[i];
  }

  lemma FinishKeeps(s: Session, env: Env, exit: Exit)
    requires Unfinished(s, env) && !exit.Interrupted?
    ensures Valid(Finish(s, exit), env)
  {
    var r := Finish(s, exit);
    assert forall i :: 0 <= i < |s.out| ==> r.out[i] == s.out[i];
  }

  lemma InterruptKeeps(s: Session, env: Env, kind: MsgKind, reportedMs: nat)
    requires Unfinished(s, env) && reportedMs < SlowCeilingMs
    ensures Valid(Interrupt(s, env, kind, reportedMs), env)
  {
    var r := Interrupt(s, env, kind, reportedMs);
    ReplyTexts([], "", reportedMs);
    assert forall i :: 0 <= i < |s.out| ==> r.out[i] == s.out[i];
    assert r.out[|s.out|] == Sent(kind, InterruptedText(reportedMs), WriteOk(s, env));
  }

  lemma {:induction false} LoopTopKeeps(s: Session, env: Env)
    requires Unfinished(s, env) && (s.phase.Slow? ==> !s.reg.shutdown)
    ensures Valid(LoopTop(s, env), env)
    decreases 2 * |s.queue| + 1
  {
    if s.reg.shutdown {
      FinishKeeps(s, env, ShutdownObserved);
    } else if |s.queue| > 0 {
      ReceiveKeeps(s.(phase := Reading, queue := s.queue[1..]), s.queue[0], env);
    }
  }

  lemma {:induction false} ReceiveKeeps(s: Session, inbound: Inbound, env: Env)
    requires Unfinished(s, env) && s.phase == Reading
    ensures Valid(Receive(s, inbound, env), env)
    decreases 2 * |s.queue| + 2
  {
    match inbound
    case ReadError => FinishKeeps(s, env, ReadFailed);
    case Frame(kind, p) =>
      match Classify(env.variant, p)
      case ShortMessage => FinishKeeps(s, env, Panicked);
      case EchoBack =>
        ReplyTexts(p, "", 0);
        WriteKeeps(s, env, kind, EchoPrefix + p);
        var s' := Write(s, env, kind, EchoPrefix + p);
        if !WriteOk(s, env) {
          FinishKeeps(s', env, EchoFailed);
        } else {
          LoopTopKeeps(s', env);
        }
      case SlowWork =>
        if s.reg.shutdown {
          InterruptKeeps(s, env, kind, 0);
        }
  }

  lemma StartValid(conn: ConnId, reg: MapRegistry.Registry, env: Env)
    ensures Valid(Start(conn, reg, env), env)
  {
    var s := Session(conn, MapRegistry.Add(reg, conn), Reading, [], 0, []);
    ReplyTexts([], "", 0);
    var s' := Write(s, env, TextMsg, Welcome);
    assert Unfinished(s', env);
    if !WriteOk(s, env) {
      FinishKeeps(s', env, WelcomeFailed);
    } else {
      LoopTopKeeps(s', env);
    }
  }

  lemma StepKeeps(s: Session, e: Event, env: Env)
    requires Valid(s, env)
    ensures Valid(Step(s, e, env), env)
  {
    match s.phase
    case Ended(_) =>
    case Reading =>
      match e {
        case Raise =>
        case Arrive(inbound) => ReceiveKeeps(s, inbound, env);
        case Elapse(_) =>
      }
    case Slow(kind, now) =>
      match e
      case Raise => InterruptKeeps(s.(reg := Raised(s.reg)), env, kind, Sampled(now));
      case Arrive(inbound) =>
      case Elapse(ms) =>
        if now + ms >= SlowCeilingMs {
          ReplyTexts([], env.stamp, 0);
          WriteKeeps(s, env, kind, CompleteText(env.stamp));
          var s' := Write(s, env, kind, CompleteText(env.stamp));
          if !WriteOk(s, env) {
            FinishKeeps(s', env, CompleteFailed);
          } else {
            LoopTopKeeps(s'.(phase := Reading), env);
          }
        }
  }

  lemma {:induction false} RunValid(s: Session, events: seq<Event>, env: Env)
    requires Valid(s, env)
    ensures Valid(Run(s, events, env), env)
    ensures Run(s, events, env).conn == s.conn
    decreases |events|
  {
    if |events| > 0 {
      StepKeeps(s, events[0], env);
      RunValid(Step(s, events[0], env), events[1..], env);
    }
  }

  // ---------------------------------------------------------------------
  // Properties

  /** Every session, whatever happens to it, greets first; it is registered
      exactly while it runs; when it ends, its last two outputs deregister
      and close the connection and nothing deregisters before that; and it
      sends an interruption reply at most once, right before it ends. */
  lemma SessionLifecycle(conn: ConnId, reg: MapRegistry.Registry, events: seq<Event>, env: Env)
    ensures
      var r := Open(conn, reg, events, env);
      && |r.out| >= 1 && r.out[0] == Sent(TextMsg, Welcome, 0 !in env.failing)
      && (r.phase.Ended? <==> conn !in r.reg.members)
      && (r.phase.Ended? ==> |r.out| >= 3 && r.out[|r.out| - 2..] == [Deregistered(conn), TransportClosed(conn)])
      && (forall i :: 0 <= i < |r.out| && r.out[i].Deregistered? ==> r.phase.Ended? && i == |r.out| - 2)
      && (forall i, j :: 0 <= i < j < |r.out| && IsInterrupt(r.out[i]) ==> !IsInterrupt(r.out[j]))
      && (r.phase.Ended? && r.phase.exit.Interrupted? ==> |r.out| >= 3 && IsInterrupt(r.out[|r.out| - 3]))
  {
    StartValid(conn, reg, env);
    RunValid(Start(conn, reg, env), events, env);
  }

  /** The deferred cleanup takes the session's connection out of the
      registry and leaves every other registration and the flag as they
      were; it appends exactly two outputs, neither of them a write, and the
      session is over. */
  lemma FinishDeregisters(s: Session, exit: Exit)
    ensures
      var r := Finish(s, exit);
      && r.phase.Ended?
      && s.conn !in r.reg.members
      && (forall d :: d != s.conn ==> (d in r.reg.members <==> d in s.reg.members))
      && r.reg.shutdown == s.reg.shutdown
      && s.out <= r.out && |r.out| == |s.out| + 2
      && (forall i :: |s.out| <= i < |r.out| ==> !r.out[i].Sent?)
      && r.writes == s.writes
  {
  }

  /** An interruption makes exactly one more write, the interruption
      reply with the request's message type, reported whether or not the
      write fails; then the session deregisters and ends. */
  lemma InterruptRepliesOnce(s: Session, env: Env, kind: MsgKind, reportedMs: nat)
    ensures
      var r := Interrupt(s, env, kind, reportedMs);
      && r.phase.Ended? && r.phase.exit.Interrupted?
      && s.conn !in r.reg.members
      && (forall d :: d != s.conn ==> (d in r.reg.members <==> d in s.reg.members))
      && s.out <= r.out && |r.out| == |s.out| + 3
      && r.writes == s.writes + 1
      && IsInterrupt(r.out[|s.out|]) && r.out[|s.out|].kind == kind
      && (forall i :: |s.out| < i < |r.out| ==> !r.out[i].Sent?)
  {
    ReplyTexts([], "", reportedMs);
  }

  /** The check at the top of the loop: with the flag raised the session
      ends there, deregistered, without writing anything; with the flag
      down and nothing queued it blocks in a read and nothing changes. */
  lemma LoopTopChecksFlag(s: Session, env: Env)
    ensures
      var r := LoopTop(s, env);
      && (s.reg.shutdown ==>
            && r.phase == Ended(ShutdownObserved)
            && s.conn !in r.reg.members
            && r.writes == s.writes
            && (forall i :: |s.out| <= i < |r.out| ==> !r.out[i].Sent?))
      && (!s.reg.shutdown && s.queue == [] ==>
            r.phase == Reading && r.out == s.out && r.reg == s.reg && r.writes == s.writes)
  {
  }

  /** An ordinary message read while the flag is down gets exactly
      "Echo: " + message, with the request's message type; the session then
      keeps reading, unless the write fails. */
  lemma EchoReply(s: Session, kind: MsgKind, p: string, env: Env)
    requires Running(s, env) && s.phase == Reading && s.queue == [] && !s.reg.shutdown
    requires Classify(env.variant, p) == EchoBack
    ensures
      var r := Step(s, Arrive(Frame(kind, p)), env);
      && r.out[..|s.out| + 1] == s.out + [Sent(kind, EchoPrefix + p, WriteOk(s, env))]
      && (WriteOk(s, env) ==> r.phase == Reading && r.out == s.out + [Sent(kind, EchoPrefix + p, true)])
      && (!WriteOk(s, env) ==> r.phase == Ended(EchoFailed))
  {
  }

  /** A flag raised while the session was blocked in a read is seen after
      that message is handled: the echo goes out and the session ends with
      no further write. */
  lemma ShutdownSeenBetweenReads(s: Session, kind: MsgKind, p: string, env: Env)
    requires Running(s, env) && s.phase == Reading && s.queue == [] && !s.reg.shutdown
    requires Classify(env.variant, p) == EchoBack && WriteOk(s, env)
    ensures
      var r := Run(s, [Raise, Arrive(Frame(kind, p))], env);
      && r.phase == Ended(ShutdownObserved)
      && r.out == s.out + [Sent(kind, EchoPrefix + p, true), Deregistered(s.conn), TransportClosed(s.conn)]
  {
    var s1 := Step(s, Raise, env);
    assert s1 == s.(reg := Raised(s.reg));
    var s2 := Step(s1, Arrive(Frame(kind, p)), env);
    assert s2 == Finish(Write(s1, env, kind, EchoPrefix + p), ShutdownObserved);
    assert [Raise, Arrive(Frame(kind, p))][1..] == [Arrive(Frame(kind, p))];
    assert Run(s1, [Arrive(Frame(kind, p))], env) == Run(s2, [], env);
    assert Run(s, [Raise, Arrive(Frame(kind, p))], env) == Run(s1, [Arrive(Frame(kind, p))], env);
  }

  /** A session that starts after shutdown greets and then ends at the first
      check, before reading anything. */
  lemma StartAfterShutdown(conn: ConnId, reg: MapRegistry.Registry, env: Env)
    requires reg.shutdown && 0 !in env.failing
    ensures Start(conn, reg, env).out == [Sent(TextMsg, Welcome, true), Deregistered(conn), TransportClosed(conn)]
    ensures Start(conn, reg, env).phase == Ended(ShutdownObserved)
  {
  }

  /** Any read error ends the session. */
  lemma ReadErrorEnds(s: Session, env: Env)
    requires Running(s, env) && s.phase == Reading
    ensures Step(s, Arrive(ReadError), env) == Finish(s, ReadFailed)
  {
  }

  /** A message shorter than 9 bytes other than "SLOW_REQUEST" makes the
      session as written panic; the deferred cleanup still deregisters it.
      The corrected classifier echoes it. */
  lemma ShortMessagePanics(s: Session, kind: MsgKind, p: string, env: Env)
    requires Running(s, env) && s.phase == Reading && s.queue == [] && !s.reg.shutdown
    requires Utf8Len(p) < |SlowPing| && p != SlowRequest
    ensures env.variant == AsWritten ==> Step(s, Arrive(Frame(kind, p)), env) == Finish(s, Panicked)
    ensures env.variant == Corrected ==>
              Step(s, Arrive(Frame(kind, p)), env).out[|s.out|] == Sent(kind, EchoPrefix + p, WriteOk(s, env))
  {
  }

  /** Time in the slow operation: below the ceiling nothing is sent; at the
      ceiling exactly the completion message is sent with the request's type
      and the session returns to reading. */
  lemma SlowCompletion(s: Session, ms: nat, env: Env)
    requires Running(s, env) && s.phase.Slow? && s.queue == []
    ensures
      var r := Step(s, Elapse(ms), env);
      var now := s.phase.nowMs;
      && (now + ms < SlowCeilingMs ==> r == s.(phase := Slow(s.phase.kind, now + ms)))
      && (now + ms >= SlowCeilingMs ==>
            && r.out[..|s.out| + 1] == s.out + [Sent(s.phase.kind, CompleteText(env.stamp), WriteOk(s, env))]
            && (WriteOk(s, env) ==> r.phase == Reading && |r.out| == |s.out| + 1)
            && (!WriteOk(s, env) ==> r.phase == Ended(CompleteFailed)))
  {
  }

  /** Shutdown during the slow operation: exactly one interruption reply,
      reporting an elapsed time below 30 s that lags the true elapsed time by
      less than one tick, and the session ends. */
  lemma SlowInterruption(s: Session, env: Env)
    requires Running(s, env) && s.phase.Slow?
    ensures
      var r := Step(s, Raise, env);
      var now := s.phase.nowMs;
      && r.phase.Ended? && r.phase.exit.Interrupted?
      && var rep := r.phase.exit.reportedMs;
      && rep <= now < rep + SlowTickMs
      && rep < SlowCeilingMs
      && r.out == s.out + [Sent(s.phase.kind, InterruptedText(rep), WriteOk(s, env)),
                           Deregistered(s.conn), TransportClosed(s.conn)]
  {
  }

  /** A slow request read after shutdown was raised is interrupted at once,
      reporting 0.0 seconds. */
  lemma SlowAfterShutdown(s: Session, kind: MsgKind, env: Env)
    requires Running(s, env) && s.phase == Reading && s.reg.shutdown
    ensures Step(s, Arrive(Frame(kind, SlowRequest)), env).phase == Ended(Interrupted(0))
    ensures InterruptedText(0) == InterruptedPrefix + "0.0 seconds"
  {
    assert ClassifyAsWritten(SlowRequest) == SlowWork;
  }

  /** A session greeted "hello" while idle returns exactly "Echo: hello"
      under the corrected classifier, and panics as written. */
  lemma HelloExample(env: Env)
    requires 0 !in env.failing && 1 !in env.failing
    ensures
      var r := Open(7, MapRegistry.New(), [Arrive(Frame(TextMsg, "hello"))], env);
      && (env.variant == Corrected ==>
            r.out == [Sent(TextMsg, Welcome, true), Sent(TextMsg, "Echo: hello", true)] && r.phase == Reading)
      && (env.variant == AsWritten ==> r.phase == Ended(Panicked) && 7 !in r.reg.members)
  {
    var s0 := Start(7, MapRegistry.New(), env);
    assert s0.out == [Sent(TextMsg, Welcome, true)] && s0.phase == Reading && s0.writes == 1;
    assert !HasPrefix("hello", SlowPing);
    var s1 := Step(s0, Arrive(Frame(TextMsg, "hello")), env);
    assert EchoPrefix + "hello" == "Echo: hello";
    assert Open(7, MapRegistry.New(), [Arrive(Frame(TextMsg, "hello"))], env) == Run(s1, [], env);
  }

  lemma PongEchoes(v: Variant)
    ensures Classify(v, "SLOW_PONG!") == EchoBack
  {
    assert "SLOW_PONG!"[..9][6] != SlowPing[6];
    AsciiLen("SLOW_PONG!");
  }

  /** An echoed message whose write succeeds, read with the flag down and
      nothing queued, leaves the session reading. */
  lemma EchoStep(s: Session, kind: MsgKind, p: string, env: Env)
    requires s.phase == Reading && s.queue == [] && !s.reg.shutdown && WriteOk(s, env)
    requires Classify(env.variant, p) == EchoBack
    ensures Step(s, Arrive(Frame(kind, p)), env) == Write(s, env, kind, EchoPrefix + p)
  {
  }

  /** A slow request with no shutdown completes after 31 simulated seconds
      and the session accepts the next request. */
  lemma SlowThenEcho(env: Env)
    requires env.failing == {}
    ensures
      var r := Open(7, MapRegistry.New(),
                    [Arrive(Frame(TextMsg, SlowRequest)), Elapse(31000), Arrive(Frame(TextMsg, "SLOW_PONG!"))], env);
      && r.out == [Sent(TextMsg, Welcome, true),
                   Sent(TextMsg, CompleteText(env.stamp), true),
                   Sent(TextMsg, "Echo: SLOW_PONG!", true)]
      && r.phase == Reading
  {
    var s0 := Start(7, MapRegistry.New(), env);
    assert ClassifyAsWritten(SlowRequest) == SlowWork;
    var s1 := Step(s0, Arrive(Frame(TextMsg, SlowRequest)), env);
    assert s1.phase == Slow(TextMsg, 0);
    var s2 := Step(s1, Elapse(31000), env);
    assert s2.out == [Sent(TextMsg, Welcome, true), Sent(TextMsg, CompleteText(env.stamp), true)];
    assert s2.phase == Reading && s2.writes == 2 && !s2.reg.shutdown && s2.queue == [];
    PongEchoes(env.variant);
    var s3 := Step(s2, Arrive(Frame(TextMsg, "SLOW_PONG!")), env);
    EchoStep(s2, TextMsg, "SLOW_PONG!", env);
    assert EchoPrefix + "SLOW_PONG!" == "Echo: SLOW_PONG!";
    var evs := [Arrive(Frame(TextMsg, SlowRequest)), Elapse(31000), Arrive(Frame(TextMsg, "SLOW_PONG!"))];
    assert Run(s0, evs, env) == Run(s1, evs[1..], env);
    assert Run(s1, evs[1..], env) == Run(s2, evs[2..], env);
    assert Run(s2, evs[2..], env) == Run(s3, [], env);
  }
}
