/** The cleanup service: it waits for a peer to send the preStop trigger on
    its listener, then repeatedly asks the server's TCP control channel to
    drain 11 connections, every 10 seconds, until a write fails. */
module Cleanup {
  import opened Common
  import Lines
  import ControlTcp
  import SliceRegistry

  /** The exact bytes one read must return to fire (`echo` adds the newline). */
  const Trigger: string := "preStop-trigger\n"
  /** The drain request, written with `Fprintln`. */
  const Request: string := "11"
  const RequestCount: nat := 11

  /** One `conn.Read` into the shared buffer: the bytes it returned, or an
      error (end of stream or any other). */
  datatype Read = Chunk(data: string) | Failed

  /** How a trigger connection's handler ends: it fired at read `at`, it
      returned on an error or an empty read at `at`, or it is still blocked
      in a read. */
  datatype PeerEnd = Fired(at: nat) | HungUp(at: nat) | Waiting

  /** A read after which the handler keeps reading. */
  predicate Quiet(rd: Read)
  {
    rd.Chunk? && rd.data != [] && rd.data != Trigger
  }

  predicate QuietBefore(rs: seq<Read>, k: nat)
    requires k <= |rs|
  {
    forall j :: 0 <= j < k ==> Quiet(rs[j])
  }

  function HandleFrom(rs: seq<Read>, i: nat): (r: PeerEnd)
    requires i <= |rs| && QuietBefore(rs, i)
    ensures r.Fired? ==> r.at < |rs| && rs[r.at] == Chunk(Trigger) && QuietBefore(rs, r.at)
    ensures r.HungUp? ==> r.at < |rs| && QuietBefore(rs, r.at)
                          && (rs[r.at].Failed? || rs[r.at] == Chunk([]))
    ensures r.Waiting? ==> QuietBefore(rs, |rs|)
    decreases |rs| - i
  {
    if i == |rs| then Waiting
    else
      match rs[i]
      case Failed => HungUp(i)
      case Chunk(data) =>
        if data == [] then HungUp(i)
        else if data == Trigger then Fired(i)
        else HandleFrom(rs, i + 1)
  }

  /** `handleConnection`: read until a single read returns exactly the
      trigger, an error or nothing. It fires only on a read that is the
      whole trigger, after reads that were all quiet; it gives up only on an
      error or an empty read; and it keeps waiting only while every read so
      far was quiet. */
  function HandlePeer(rs: seq<Read>): (r: PeerEnd)
    ensures r.Fired? ==> r.at < |rs| && rs[r.at] == Chunk(Trigger) && QuietBefore(rs, r.at)
    ensures r.HungUp? ==> r.at < |rs| && QuietBefore(rs, r.at) && (rs[r.at].Failed? || rs[r.at] == Chunk([]))
    ensures r.Waiting? ==> QuietBefore(rs, |rs|)
  {
    HandleFrom(rs, 0)
  }

  /** A peer's outcome is fixed by its reads: it fires exactly when some read
      returns the trigger after only non-empty, non-trigger reads. */
  lemma FiresIff(rs: seq<Read>)
    ensures HandlePeer(rs).Fired? <==>
              exists k :: 0 <= k < |rs| && rs[k] == Chunk(Trigger) && QuietBefore(rs, k)
  {
    var r := HandlePeer(rs);
    if k :| 0 <= k < |rs| && rs[k] == Chunk(Trigger) && QuietBefore(rs, k) {
      if r.HungUp? {
        if r.at < k { assert Quiet(rs[r.at]); } else if r.at > k { assert Quiet(rs[k]); }
      } else if r.Waiting? {
        assert Quiet(rs[k]);
      }
    }
  }

  /** The trigger split over two reads, or sent without its newline, never
      fires: the handler compares each read as a whole. */
  lemma TriggerMustArriveWhole()
    ensures HandlePeer([Chunk("preStop-"), Chunk("trigger\n")]) == Waiting
    ensures HandlePeer([Chunk("preStop-trigger")]) == Waiting
    ensures HandlePeer([Chunk("hi\n"), Chunk(Trigger)]) == Fired(1)
  {
    assert "preStop-" != Trigger && "trigger\n" != Trigger && "preStop-trigger" != Trigger;
    assert "hi\n" != Trigger;
    assert HandleFrom([Chunk("hi\n"), Chunk(Trigger)], 1) == Fired(1);
  }

  /** Number of peers that fire. */
  function Firings(peers: seq<seq<Read>>): nat
  {
    if |peers| == 0 then 0
    else (if HandlePeer(peers[0]).Fired? then 1 else 0) + Firings(peers[1..])
  }

  /** The gate's final state: whether the waiting cleanup was released, and
      whether a close of the already closed channel crashed the service. */
  datatype GateRun = GateRun(released: bool, crashed: bool)

  /** The trigger handlers, in the order they reach `close(continueCh)`. As
      written every firing handler closes the channel; corrected, only the
      first does. */
  function CloseGate(v: Variant, closed: bool, peers: seq<seq<Read>>): (r: GateRun)
    ensures r.released <==> closed || Firings(peers) > 0
    ensures v == Corrected ==> !r.crashed
    ensures v == AsWritten ==> (r.crashed <==> (if closed then 1 else 0) + Firings(peers) >= 2)
    decreases |peers|
  {
    if |peers| == 0 then GateRun(closed, false)
    else if HandlePeer(peers[0]).Fired? then
      if closed && v == AsWritten then GateRun(true, true)
      else CloseGate(v, true, peers[1..])
    else CloseGate(v, closed, peers[1..])
  }

  /** `listenForPreStop` with the channel still open: the cleanup is
      released when some peer fires; as written a second firing peer
      crashes the service, corrected nothing does. */
  function Listen(v: Variant, peers: seq<seq<Read>>): (r: GateRun)
    ensures r.released <==> Firings(peers) > 0
    ensures v == AsWritten ==> (r.crashed <==> Firings(peers) >= 2)
    ensures v == Corrected ==> !r.crashed
  {
    CloseGate(v, false, peers)
  }

  /** Two trigger connections crash the service as written; corrected, the
      cleanup is released once. */
  lemma SecondTriggerCrashes(v: Variant)
    ensures Listen(v, [[Chunk(Trigger)], [Chunk(Trigger)]]) == GateRun(true, v == AsWritten)
  {
  }

  /** One round of the cleanup loop: the request write succeeded or not,
      and the reply line the scanner returned, if any. */
  datatype TaskRun = TaskRun(sent: seq<string>, received: seq<string>, stopped: bool)

  /** Rounds `i` to `rounds` - 1 of `performCleanupTask`, 10 seconds apart.
      `sendFails` lists the rounds whose write fails; `incoming` the reply
      lines still to come before the stream ends (after which `Scan` returns
      false at once). */
  function TaskFrom(rounds: nat, i: nat, sendFails: set<nat>, incoming: seq<string>): (r: TaskRun)
    requires i <= rounds
    ensures forall j :: 0 <= j < |r.sent| ==> r.sent[j] == Request
    ensures |r.sent| <= rounds - i
    ensures r.stopped <==> exists j :: i <= j < rounds && j in sendFails
    ensures r.stopped ==> i + |r.sent| in sendFails && forall j :: i <= j < i + |r.sent| ==> j !in sendFails
    ensures !r.stopped ==> |r.sent| == rounds - i
    ensures r.received == incoming[..Min(|r.sent|, |incoming|)]
    decreases rounds - i
  {
    if i == rounds then TaskRun([], [], false)
    else if i in sendFails then TaskRun([], [], true)
    else
      var rest := TaskFrom(rounds, i + 1, sendFails, if |incoming| > 0 then incoming[1..] else []);
      var got := if |incoming| > 0 then [incoming[0]] else [];
      TaskRun([Request] + rest.sent, got + rest.received, rest.stopped)
  }

  /** The first `rounds` rounds of the cleanup task: it writes the request
      once per round until the first failing write, which stops it for
      good, and collects one reply line per request while the stream
      lasts. */
  function Task(rounds: nat, sendFails: set<nat>, incoming: seq<string>): (r: TaskRun)
    ensures |r.sent| <= rounds && forall j :: 0 <= j < |r.sent| ==> r.sent[j] == Request
    ensures r.stopped <==> exists j :: 0 <= j < rounds && j in sendFails
    ensures r.stopped ==> |r.sent| in sendFails && forall j :: 0 <= j < |r.sent| ==> j !in sendFails
    ensures !r.stopped ==> |r.sent| == rounds
    ensures r.received == incoming[..Min(|r.sent|, |incoming|)]
  {
    TaskFrom(rounds, 0, sendFails, incoming)
  }

  /** k copies of the request, as the cleanup task writes them. */
  function Requests(k: nat): (r: seq<string>)
    ensures |r| == k && forall j :: 0 <= j < k ==> r[j] == Request
  {
    seq(k, _ => Request)
  }

  /** The connections k requests ask the server to drain. */
  function Asked(k: nat): nat
  {
    k * RequestCount
  }

  /** Each request line reads back as the count 11. */
  lemma RequestsParse(k: nat)
    ensures forall j :: 0 <= j < k ==> Lines.PlainLine(Requests(k)[j])
    ensures Lines.ScanLines(Lines.JoinLines(Requests(k))) == Requests(k)
    ensures forall j :: 0 <= j < k ==> ControlTcp.ParseAll(Requests(k))[j] == ControlTcp.Token("11", Some(11))
  {
    assert Lines.PlainLine(Request);
    Lines.ScanJoin(Requests(k));
    ControlTcp.ParsedExamples();
    assert ControlTcp.Parse("11") == ControlTcp.Token("11", Some(11)) by {
      assert ControlTcp.ParseAll(["11"])[0] == ControlTcp.Parse("11");
    }
  }

  lemma {:induction false} AcceptedAll(toks: seq<ControlTcp.Token>)
    requires forall j :: 0 <= j < |toks| ==> toks[j] == ControlTcp.Token("11", Some(11))
    ensures ControlTcp.Accepted(toks) == toks
    ensures ControlTcp.Total(toks) == Asked(|toks|)
  {
    if |toks| > 0 {
      AcceptedAll(toks[1..]);
    }
  }

  /** A run of parsed requests served by the corrected TCP channel with
      every acknowledgement written. */
  lemma ServeRequests(toks: seq<ControlTcp.Token>, m: SliceRegistry.Manager, faults: Faults)
    requires forall j :: 0 <= j < |toks| ==> toks[j] == ControlTcp.Token("11", Some(11))
    ensures
      var r := ControlTcp.Serve(Corrected, toks, m, faults, {}, 0);
      && r.end == ControlTcp.InputDone
      && |r.replies| == |toks|
      && r.manager.slots == m.slots[Min(Asked(|toks|), |m.slots|)..]
  {
    AcceptedAll(toks);
    var r := ControlTcp.Serve(Corrected, toks, m, faults, {}, 0);
    assert forall j :: 0 <= j < |toks| ==> ControlTcp.Value(toks[j]) >= 0;
    ControlTcp.CorrectedServeDrainsOldest(toks, m, faults, {}, 0);
    ControlTcp.NoWriteFails(Corrected, toks, m, faults, 0);
    ControlTcp.ServeFollowsInput(Corrected, toks, m, faults, {}, 0);
  }

  /** k requests read by the server's corrected TCP channel with every
      acknowledgement written: all are acknowledged and together drain the
      11 * k oldest connections, or all of them. */
  lemma RequestsDrainOldest(k: nat, m: SliceRegistry.Manager, faults: Faults)
    ensures
      var r := ControlTcp.HandleConnection(Corrected, Lines.JoinLines(Requests(k)), m, faults, {});
      && r.end == ControlTcp.InputDone
      && |r.replies| == k
      && r.manager.slots == m.slots[Min(Asked(k), |m.slots|)..]
  {
    RequestsParse(k);
    ServeRequests(ControlTcp.ParseAll(Requests(k)), m, faults);
  }

  /** End to end: whatever the cleanup task managed to send, read by the server's
      corrected TCP channel, is acknowledged request by request and drains
      the 11 oldest connections per request, or all of them. */
  lemma CleanupDrainsOldest(rounds: nat, sendFails: set<nat>, incoming: seq<string>, m: SliceRegistry.Manager, faults: Faults)
    ensures
      var sent := Task(rounds, sendFails, incoming).sent;
      var r := ControlTcp.HandleConnection(Corrected, Lines.JoinLines(sent), m, faults, {});
      && r.end == ControlTcp.InputDone
      && |r.replies| == |sent|
      && r.manager.slots == m.slots[Min(Asked(|sent|), |m.slots|)..]
  {
    var sent := Task(rounds, sendFails, incoming).sent;
    assert sent == Requests(|sent|);
    RequestsDrainOldest(|sent|, m, faults);
  }
}
