/** The TCP control channel (`handleServiceConnection`): each line a peer
    sends is read as a count; a count drains that many connections from the
    slice registry and is acknowledged; anything else is skipped. */
module ControlTcp {
  import opened Common
  import opened Decimal
  import opened SliceRegistry
  import Lines

  /** The acknowledgement, carrying the request text exactly as received. */
  function ReplyText(msg: string): string
  {
    "Closing " + msg + " WS connections\n"
  }

  datatype Reply = Reply(text: string, ok: bool)

  /** The peer stopped sending, an acknowledgement could not be written, or a
      drain panicked (which, outside `net/http`, ends the server). */
  datatype End = InputDone | WriteFailed | Crashed(kind: PanicKind)

  /** The requests acted on (as received), the acknowledgements written, the
      drains' effects in order, and the registry left behind. */
  datatype ServeRun = ServeRun(
    manager: Manager,
    requests: seq<Token>,
    replies: seq<Reply>,
    effects: seq<CloseEffect>,
    end: End)

  /** A scanner token and what `strconv.Atoi` makes of it. */
  datatype Token = Token(text: string, count: Option<int>)

  function Parse(l: string): (t: Token)
    ensures t.text == l && t.count == Atoi(l)
  {
    Token(l, Atoi(l))
  }

  function ParseAll(lines: seq<string>): (r: seq<Token>)
    ensures |r| == |lines| && forall i :: 0 <= i < |lines| ==> r[i] == Parse(lines[i])
  {
    seq(|lines|, i requires 0 <= i < |lines| => Parse(lines[i]))
  }

  /** The tokens the server acts on: those with a count, in order. */
  function Accepted(toks: seq<Token>): (r: seq<Token>)
    ensures |r| <= |toks|
    ensures forall i :: 0 <= i < |r| ==> r[i].count.Some? && r[i] in toks
    ensures forall t :: t in toks && t.count.Some? ==> t in r
  {
    if |toks| == 0 then []
    else if toks[0].count.Some? then [toks[0]] + Accepted(toks[1..])
    else Accepted(toks[1..])
  }

  /** The selection keeps order and repetition: it distributes over
      concatenation, and a single token is kept exactly when it has a count. */
  lemma {:induction false} AcceptedAppend(a: seq<Token>, b: seq<Token>)
    ensures Accepted(a + b) == Accepted(a) + Accepted(b)
    ensures |a| == 1 ==> Accepted(a) == if a[0].count.Some? then a else []
  {
    if |a| == 0 {
      assert a + b == b;
    } else {
      assert (a + b)[1..] == a[1..] + b;
      AcceptedAppend(a[1..], b);
    }
  }

  /** The count a token asks for; 0 for a token the server skips. */
  function Value(t: Token): int
  {
    match t.count
    case Some(n) => n
    case None => 0
  }

  function Total(toks: seq<Token>): int
  {
    if |toks| == 0 then 0 else Value(toks[0]) + Total(toks[1..])
  }

  /** One connection's session over its parsed lines: a token without a
      count is skipped; a count drains the registry, then the
      acknowledgement is written. `failing` lists the acknowledgement
      writes (counted from `written`) that fail. */
  function Serve(v: Variant, toks: seq<Token>, m: Manager, faults: Faults, failing: set<nat>, written: nat): (r: ServeRun)
    ensures r.end.Crashed? ==> |r.requests| > 0 && |r.replies| == |r.requests| - 1
    ensures r.end == WriteFailed ==> |r.requests| > 0
    ensures !r.end.Crashed? ==> |r.replies| == |r.requests|
    decreases |toks|
  {
    if |toks| == 0 then ServeRun(m, [], [], [], InputDone)
    else
      match toks[0].count
      case None => Serve(v, toks[1..], m, faults, failing, written)
      case Some(n) =>
        var msg := toks[0].text;
        var d := DrainFirstN(v, m, n, faults);
        if d.panicked.Some? then ServeRun(d.after, [toks[0]], [], d.effects, Crashed(d.panicked.value))
        else
          var reply := Reply(ReplyText(msg), written !in failing);
          if !reply.ok then ServeRun(d.after, [toks[0]], [reply], d.effects, WriteFailed)
          else
            var rest := Serve(v, toks[1..], d.after, faults, failing, written + 1);
            ServeRun(rest.manager, [toks[0]] + rest.requests, [reply] + rest.replies,
                     d.effects + rest.effects, rest.end)
  }

  /** `handleServiceConnection` on the bytes a peer sent: it acts on the
      lines that parse as counts, in the order sent, and stops early only on
      a crash or a failed acknowledgement; every request but a crashing one
      is acknowledged with its own text, in order. */
  function HandleConnection(v: Variant, data: string, m: Manager, faults: Faults, failing: set<nat>): (r: ServeRun)
    ensures
      var counts := Accepted(ParseAll(Lines.ScanLines(data)));
      && |r.requests| <= |counts|
      && r.requests == counts[..|r.requests|]
      && (r.end == InputDone ==> r.requests == counts)
    ensures RepliesInOrder(r, failing, 0)
  {
    var toks := ParseAll(Lines.ScanLines(data));
    ServeFollowsInput(v, toks, m, faults, failing, 0);
    ServeReplies(v, toks, m, faults, failing, 0);
    Serve(v, toks, m, faults, failing, 0)
  }

  /** A token without a count is skipped. */
  lemma ServeSkip(v: Variant, toks: seq<Token>, m: Manager, faults: Faults, failing: set<nat>, written: nat)
    requires |toks| > 0 && toks[0].count.None?
    ensures Serve(v, toks, m, faults, failing, written) == Serve(v, toks[1..], m, faults, failing, written)
  {
  }

  /** A count is drained, then the acknowledgement fails to be written. */
  lemma ServeWriteFails(v: Variant, toks: seq<Token>, m: Manager, faults: Faults, failing: set<nat>, written: nat, n: int)
    requires |toks| > 0 && toks[0].count == Some(n)
    requires DrainFirstN(v, m, n, faults).panicked.None? && written in failing
    ensures
      var d := DrainFirstN(v, m, n, faults);
      Serve(v, toks, m, faults, failing, written)
        == ServeRun(d.after, [toks[0]], [Reply(ReplyText(toks[0].text), false)], d.effects, WriteFailed)
  {
  }

  /** A count is drained and acknowledged, then the rest is served. */
  lemma ServeAct(v: Variant, toks: seq<Token>, m: Manager, faults: Faults, failing: set<nat>, written: nat, n: int)
    requires |toks| > 0 && toks[0].count == Some(n)
    requires DrainFirstN(v, m, n, faults).panicked.None? && written !in failing
    ensures
      var d := DrainFirstN(v, m, n, faults);
      var rest := Serve(v, toks[1..], d.after, faults, failing, written + 1);
      Serve(v, toks, m, faults, failing, written)
        == ServeRun(rest.manager, [toks[0]] + rest.requests,
                    [Reply(ReplyText(toks[0].text), true)] + rest.replies, d.effects + rest.effects, rest.end)
  {
  }

  /** The requests acted on are the accepted lines, in order: all of them
      when the input ran out, a prefix of them otherwise. */
  predicate FollowsInput(v: Variant, toks: seq<Token>, m: Manager, faults: Faults, failing: set<nat>, written: nat)
  {
    var r := Serve(v, toks, m, faults, failing, written);
    && |r.requests| <= |Accepted(toks)|
    && r.requests == Accepted(toks)[..|r.requests|]
    && (r.end == InputDone ==> r.requests == Accepted(toks))
  }

  lemma FollowsInputStep(v: Variant, toks: seq<Token>, m: Manager, faults: Faults, failing: set<nat>, written: nat, n: int)
    requires |toks| > 0 && toks[0].count == Some(n)
    requires DrainFirstN(v, m, n, faults).panicked.None? && written !in failing
    requires FollowsInput(v, toks[1..], DrainFirstN(v, m, n, faults).after, faults, failing, written + 1)
    ensures FollowsInput(v, toks, m, faults, failing, written)
  {
    var d := DrainFirstN(v, m, n, faults);
    ServeAct(v, toks, m, faults, failing, written, n);
    var rest := Serve(v, toks[1..], d.after, faults, failing, written + 1);
    assert Accepted(toks) == [toks[0]] + Accepted(toks[1..]);
    assert ([toks[0]] + Accepted(toks[1..]))[..1 + |rest.requests|]
           == [toks[0]] + Accepted(toks[1..])[..|rest.requests|];
  }

  lemma {:induction false} ServeFollowsInput(v: Variant, toks: seq<Token>, m: Manager, faults: Faults, failing: set<nat>, written: nat)
    ensures
      var r := Serve(v, toks, m, faults, failing, written);
      && |r.requests| <= |Accepted(toks)|
      && r.requests == Accepted(toks)[..|r.requests|]
      && (r.end == InputDone ==> r.requests == Accepted(toks))
    decreases |toks|
  {
    if |toks| > 0 {
      match toks[0].count
      case None =>
        ServeSkip(v, toks, m, faults, failing, written);
        ServeFollowsInput(v, toks[1..], m, faults, failing, written);
      case Some(n) =>
        var d := DrainFirstN(v, m, n, faults);
        if d.panicked.None? && written !in failing {
          ServeFollowsInput(v, toks[1..], d.after, faults, failing, written + 1);
          FollowsInputStep(v, toks, m, faults, failing, written, n);
        }
    }
  }

  /** Every request acted on but the crashing one is acknowledged with its
      own text, in order; each acknowledgement is the next write, and only
      the last can have failed, which ends the session. */
  predicate RepliesInOrder(r: ServeRun, failing: set<nat>, written: nat)
  {
    && |r.replies| <= |r.requests|
    && (forall i :: 0 <= i < |r.replies| ==>
          r.replies[i].text == ReplyText(r.requests[i].text) && r.replies[i].ok == (written + i !in failing))
    && (forall i :: 0 <= i < |r.replies| ==>
          (r.replies[i].ok <==> !(r.end == WriteFailed && i == |r.replies| - 1)))
    && (r.end == WriteFailed ==> |r.replies| > 0)
  }

  /** A written acknowledgement followed by the rest of the session keeps
      the acknowledgements in order. */
  lemma RepliesCompose(t: Token, rest: ServeRun, failing: set<nat>, written: nat, manager: Manager, effects: seq<CloseEffect>)
    requires written !in failing && RepliesInOrder(rest, failing, written + 1)
    ensures RepliesInOrder(ServeRun(manager, [t] + rest.requests, [Reply(ReplyText(t.text), true)] + rest.replies,
                                    effects, rest.end), failing, written)
  {
    var r := ServeRun(manager, [t] + rest.requests, [Reply(ReplyText(t.text), true)] + rest.replies, effects, rest.end);
    forall i | 1 <= i < |r.replies|
      ensures r.replies[i] == rest.replies[i - 1] && r.requests[i] == rest.requests[i - 1]
    {
    }
  }

  lemma {:induction false} ServeReplies(v: Variant, toks: seq<Token>, m: Manager, faults: Faults, failing: set<nat>, written: nat)
    ensures RepliesInOrder(Serve(v, toks, m, faults, failing, written), failing, written)
    decreases |toks|
  {
    if |toks| > 0 {
      match toks[0].count
      case None =>
        ServeSkip(v, toks, m, faults, failing, written);
        ServeReplies(v, toks[1..], m, faults, failing, written);
      case Some(n) =>
        var d := DrainFirstN(v, m, n, faults);
        if d.panicked.None? && written !in failing {
          ServeReplies(v, toks[1..], d.after, faults, failing, written + 1);
          ServeAct(v, toks, m, faults, failing, written, n);
          var rest := Serve(v, toks[1..], d.after, faults, failing, written + 1);
          RepliesCompose(toks[0], rest, failing, written, rest.manager, d.effects + rest.effects);
        }
    }
  }

  /** With no failing write, the session never stops on a write. */
  lemma {:induction false} NoWriteFails(v: Variant, toks: seq<Token>, m: Manager, faults: Faults, written: nat)
    ensures Serve(v, toks, m, faults, {}, written).end != WriteFailed
    decreases |toks|
  {
    if |toks| > 0 {
      match toks[0].count
      case None =>
        ServeSkip(v, toks, m, faults, {}, written);
        NoWriteFails(v, toks[1..], m, faults, written);
      case Some(n) =>
        var d := DrainFirstN(v, m, n, faults);
        if d.panicked.None? {
          ServeAct(v, toks, m, faults, {}, written, n);
          NoWriteFails(v, toks[1..], d.after, faults, written + 1);
        }
    }
  }

  /** Taking a then b from the front is taking a + b. */
  lemma TakeTwice(s: seq<Slot>, a: nat, b: nat)
    ensures s[..Min(a + b, |s|)] == s[..Min(a, |s|)] + s[Min(a, |s|)..][..Min(b, |s| - Min(a, |s|))]
  {
  }

  /** Dropping a then b from the front is dropping a + b. */
  lemma DropTwice(s: seq<Slot>, a: nat, b: nat, shutdown: bool)
    ensures Manager(s[Min(a, |s|)..][Min(b, |s| - Min(a, |s|))..], shutdown) == Manager(s[Min(a + b, |s|)..], shutdown)
  {
    assert s[Min(a, |s|)..][Min(b, |s| - Min(a, |s|))..] == s[Min(a + b, |s|)..];
  }

  /** The corrected drain of n >= 0, in closed form. */
  lemma CorrectedDrain(m: Manager, n: int, faults: Faults)
    requires n >= 0
    ensures DrainFirstN(Corrected, m, n, faults)
              == DrainRun(Manager(m.slots[Min(n, |m.slots|)..], m.shutdown),
                          CloseEach(LiveIds(m.slots[..Min(n, |m.slots|)]), faults), None)
  {
  }

  /** Two corrected drains in a row are one drain of their sum. */
  lemma DrainsCompose(s: seq<Slot>, a: nat, b: nat, faults: Faults)
    ensures
      var k := Min(a, |s|);
      var j := Min(b, |s| - k);
      && s[k..][j..] == s[Min(a + b, |s|)..]
      && CloseEach(LiveIds(s[..k]), faults) + CloseEach(LiveIds(s[k..][..j]), faults)
           == CloseEach(LiveIds(s[..Min(a + b, |s|)]), faults)
  {
    var k := Min(a, |s|);
    var j := Min(b, |s| - k);
    TakeTwice(s, a, b);
    assert s[k..][j..] == s[Min(a + b, |s|)..];
    LiveIdsAppend(s[..k], s[k..][..j]);
    CloseEachAppend(LiveIds(s[..k]), LiveIds(s[k..][..j]), faults);
  }

  /** With the corrected drain and non-negative counts, the server never
      crashes, and what is left of the registry is the registry without its
      oldest connections, as many as the requests acted on asked for. */
  lemma TotalCons(t: Token, rest: seq<Token>)
    ensures Total([t] + rest) == Value(t) + Total(rest)
  {
    assert ([t] + rest)[1..] == rest;
  }

  /** The registry after one drain of n and then the rest of the session. */
  lemma KeptCompose(m: Manager, n: nat, t: Token, after: seq<Slot>, rest: ServeRun)
    requires t.count == Some(n) && Total(rest.requests) >= 0
    requires after == m.slots[Min(n, |m.slots|)..]
    requires rest.manager == Manager(after[Min(Total(rest.requests), |after|)..], m.shutdown)
    ensures Total([t] + rest.requests) >= 0
    ensures rest.manager == Manager(m.slots[Min(Total([t] + rest.requests), |m.slots|)..], m.shutdown)
  {
    TotalCons(t, rest.requests);
    DropTwice(m.slots, n, Total(rest.requests), m.shutdown);
  }

  lemma {:induction false} CorrectedServeKeepsNewest(toks: seq<Token>, m: Manager, faults: Faults, failing: set<nat>, written: nat)
    requires forall i :: 0 <= i < |toks| ==> Value(toks[i]) >= 0
    ensures
      var r := Serve(Corrected, toks, m, faults, failing, written);
      && !r.end.Crashed?
      && Total(r.requests) >= 0
      && r.manager == Manager(m.slots[Min(Total(r.requests), |m.slots|)..], m.shutdown)
    decreases |toks|
  {
    if |toks| > 0 {
      match toks[0].count
      case None =>
        ServeSkip(Corrected, toks, m, faults, failing, written);
        CorrectedServeKeepsNewest(toks[1..], m, faults, failing, written);
      case Some(n) =>
        assert Value(toks[0]) == n >= 0;
        CorrectedDrain(m, n, faults);
        if written !in failing {
          var d := DrainFirstN(Corrected, m, n, faults);
          CorrectedServeKeepsNewest(toks[1..], d.after, faults, failing, written + 1);
          ServeAct(Corrected, toks, m, faults, failing, written, n);
          KeptCompose(m, n, toks[0], d.after.slots, Serve(Corrected, toks[1..], d.after, faults, failing, written + 1));
        } else {
          assert Total([toks[0]]) == n;
        }
    }
  }

  /** The connections closed by one drain of n and then the rest of the
      session. */
  lemma ClosedCompose(m: Manager, n: nat, t: Token, after: seq<Slot>, rest: ServeRun, faults: Faults)
    requires t.count == Some(n) && Total(rest.requests) >= 0
    requires after == m.slots[Min(n, |m.slots|)..]
    requires rest.effects == CloseEach(LiveIds(after[..Min(Total(rest.requests), |after|)]), faults)
    ensures Total([t] + rest.requests) >= 0
    ensures CloseEach(LiveIds(m.slots[..Min(n, |m.slots|)]), faults) + rest.effects
            == CloseEach(LiveIds(m.slots[..Min(Total([t] + rest.requests), |m.slots|)]), faults)
  {
    TotalCons(t, rest.requests);
    DrainsCompose(m.slots, n, Total(rest.requests), faults);
  }

  /** ... and the connections it closed, in order, are exactly those oldest
      ones. */
  lemma {:induction false} CorrectedServeClosesOldest(toks: seq<Token>, m: Manager, faults: Faults, failing: set<nat>, written: nat)
    requires forall i :: 0 <= i < |toks| ==> Value(toks[i]) >= 0
    ensures
      var r := Serve(Corrected, toks, m, faults, failing, written);
      Total(r.requests) >= 0 &&
      r.effects == CloseEach(LiveIds(m.slots[..Min(Total(r.requests), |m.slots|)]), faults)
    decreases |toks|
  {
    if |toks| > 0 {
      match toks[0].count
      case None =>
        ServeSkip(Corrected, toks, m, faults, failing, written);
        CorrectedServeClosesOldest(toks[1..], m, faults, failing, written);
      case Some(n) =>
        assert Value(toks[0]) == n >= 0;
        if written !in failing {
          CorrectedDrain(m, n, faults);
          var d := DrainFirstN(Corrected, m, n, faults);
          CorrectedServeClosesOldest(toks[1..], d.after, faults, failing, written + 1);
          ServeAct(Corrected, toks, m, faults, failing, written, n);
          ClosedCompose(m, n, toks[0], d.after.slots, Serve(Corrected, toks[1..], d.after, faults, failing, written + 1), faults);
        } else {
          CorrectedDrain(m, n, faults);
          ServeWriteFails(Corrected, toks, m, faults, failing, written, n);
          assert Total([toks[0]]) == n;
        }
    }
  }

  /** Both halves together: with the corrected drain and non-negative
      counts, the server never crashes, and the connections it has closed
      are exactly the oldest ones, as many as the requests it acted on asked
      for in total. */
  lemma CorrectedServeDrainsOldest(toks: seq<Token>, m: Manager, faults: Faults, failing: set<nat>, written: nat)
    requires forall i :: 0 <= i < |toks| ==> Value(toks[i]) >= 0
    ensures
      var r := Serve(Corrected, toks, m, faults, failing, written);
      var k := Min(Total(r.requests), |m.slots|);
      && !r.end.Crashed?
      && Total(r.requests) >= 0
      && r.manager == Manager(m.slots[k..], m.shutdown)
      && r.effects == CloseEach(LiveIds(m.slots[..k]), faults)
  {
    CorrectedServeKeepsNewest(toks, m, faults, failing, written);
    CorrectedServeClosesOldest(toks, m, faults, failing, written);
  }

  lemma ParsedExamples()
    ensures ParseAll(["11"]) == [Token("11", Some(11))]
    ensures ParseAll(["007"]) == [Token("007", Some(7))]
    ensures ParseAll(["+5"]) == [Token("+5", Some(5))]
    ensures ParseAll(["-1"]) == [Token("-1", Some(-1))]
  {
    AtoiNormalises();
  }

  /** Serving one count with the corrected drain and a working connection. */
  lemma ServeOne(m: Manager, text: string, n: nat, faults: Faults)
    ensures
      var r := Serve(Corrected, [Token(text, Some(n))], m, faults, {}, 0);
      && r.end == InputDone
      && r.replies == [Reply(ReplyText(text), true)]
      && r.manager.slots == m.slots[Min(n, |m.slots|)..]
  {
    CorrectedDrain(m, n, faults);
    ServeAct(Corrected, [Token(text, Some(n))], m, faults, {}, 0, n);
    assert [Token(text, Some(n))][1..] == [];
  }

  /** The cleanup service's request "11", as `Fprintln` writes it, is read
      as the count 11, drains up to 11 connections and is acknowledged with
      its own text. */
  lemma CleanupRequestAcknowledged(m: Manager, faults: Faults)
    ensures Lines.ScanLines(Lines.JoinLines(["11"])) == ["11"]
    ensures
      var r := HandleConnection(Corrected, Lines.JoinLines(["11"]), m, faults, {});
      && r.end == InputDone
      && r.replies == [Reply(ReplyText("11"), true)]
      && r.manager.slots == m.slots[Min(11, |m.slots|)..]
  {
    assert Lines.PlainLine("11");
    Lines.ScanJoin(["11"]);
    ParsedExamples();
    ServeOne(m, "11", 11, faults);
  }

  /** The reply keeps the request's text: "007" and "+5" are acknowledged
      as such. */
  lemma ReplyEchoesText(m: Manager, faults: Faults)
    ensures Serve(Corrected, ParseAll(["007"]), m, faults, {}, 0).replies == [Reply(ReplyText("007"), true)]
    ensures Serve(Corrected, ParseAll(["+5"]), m, faults, {}, 0).replies == [Reply(ReplyText("+5"), true)]
  {
    ParsedExamples();
    ServeOne(m, "007", 7, faults);
    ServeOne(m, "+5", 5, faults);
  }

  /** ... and not in the canonical form of the counts 7 and 5 they drain. */
  lemma ReplyNotCanonical()
    ensures ReplyText("007") != ReplyText(Itoa(7)) && ReplyText("+5") != ReplyText(Itoa(5))
  {
    AtoiNormalises();
    assert ReplyText("007")[8] == '0' && ReplyText("7")[8] == '7';
    assert ReplyText("+5")[8] == '+' && ReplyText("5")[8] == '5';
  }

  /** A negative count passes the reader and crashes the server in both
      definitions of the drain, before any reply. */
  lemma NegativeCountCrashes(v: Variant, m: Manager, faults: Faults)
    ensures Serve(v, ParseAll(["-1"]), m, faults, {}, 0).end == Crashed(NegativeLength)
    ensures Serve(v, ParseAll(["-1"]), m, faults, {}, 0).replies == []
  {
    ParsedExamples();
  }
}
