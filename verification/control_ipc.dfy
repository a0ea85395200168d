/** The Unix-socket control channel (`handleIPCConnection`): every line is
    acknowledged with the same text the TCP channel uses, but nothing is
    parsed and no connection is drained. */
module ControlIpc {
  import opened Common
  import opened ControlTcp
  import Lines

  /** The acknowledgements written and why the session stopped; it never
      crashes. */
  datatype IpcRun = IpcRun(replies: seq<Reply>, end: End)

  /** One connection's session over its scanner tokens; `failing` lists the
      writes (counted from `written`) that fail. */
  function ServeIpc(lines: seq<string>, failing: set<nat>, written: nat): (r: IpcRun)
    ensures !r.end.Crashed?
    ensures |r.replies| <= |lines|
    ensures r.end == InputDone ==> |r.replies| == |lines|
    ensures r.end == WriteFailed ==> |r.replies| > 0
    decreases |lines|
  {
    if |lines| == 0 then IpcRun([], InputDone)
    else
      var reply := Reply(ReplyText(lines[0]), written !in failing);
      if !reply.ok then IpcRun([reply], WriteFailed)
      else
        var rest := ServeIpc(lines[1..], failing, written + 1);
        IpcRun([reply] + rest.replies, rest.end)
  }

  /** Line i is acknowledged with its own text as write `written + i`; the
      session stops at the first failed write and only there. */
  lemma {:induction false} IpcReplies(lines: seq<string>, failing: set<nat>, written: nat)
    ensures
      var r := ServeIpc(lines, failing, written);
      && (forall i :: 0 <= i < |r.replies| ==>
            r.replies[i].text == ReplyText(lines[i]) && r.replies[i].ok == (written + i !in failing))
      && (forall i :: 0 <= i < |r.replies| ==>
            (r.replies[i].ok <==> !(r.end == WriteFailed && i == |r.replies| - 1)))
    decreases |lines|
  {
    if |lines| > 0 && written !in failing {
      IpcReplies(lines[1..], failing, written + 1);
      var rest := ServeIpc(lines[1..], failing, written + 1);
      var r := ServeIpc(lines, failing, written);
      assert r.replies == [Reply(ReplyText(lines[0]), true)] + rest.replies;
      forall i | 1 <= i < |r.replies|
        ensures r.replies[i] == rest.replies[i - 1] && lines[i] == lines[1..][i - 1]
      {
      }
    }
  }

  function Texts(toks: seq<Token>): (r: seq<string>)
    ensures |r| == |toks| && forall i :: 0 <= i < |toks| ==> r[i] == toks[i].text
  {
    seq(|toks|, i requires 0 <= i < |toks| => toks[i].text)
  }

  /** On a stream of valid non-negative counts, the IPC channel writes
      exactly the acknowledgements the corrected TCP channel writes, and
      stops for the same reason. */
  lemma {:induction false} IpcMatchesTcp(toks: seq<Token>, m: SliceRegistry.Manager, faults: Faults, failing: set<nat>, written: nat)
    requires forall i :: 0 <= i < |toks| ==> toks[i].count.Some? && Value(toks[i]) >= 0
    ensures ServeIpc(Texts(toks), failing, written).replies == Serve(Corrected, toks, m, faults, failing, written).replies
    ensures ServeIpc(Texts(toks), failing, written).end == Serve(Corrected, toks, m, faults, failing, written).end
    decreases |toks|
  {
    if |toks| > 0 {
      var n := toks[0].count.value;
      assert Value(toks[0]) == n;
      CorrectedDrain(m, n, faults);
      var d := SliceRegistry.DrainFirstN(Corrected, m, n, faults);
      assert Texts(toks)[1..] == Texts(toks[1..]);
      if written !in failing {
        ServeAct(Corrected, toks, m, faults, failing, written, n);
        IpcMatchesTcp(toks[1..], d.after, faults, failing, written + 1);
      }
    }
  }

  /** A line that is not a count is skipped by the TCP channel but still
      acknowledged here. */
  lemma IpcAcknowledgesAnything(m: SliceRegistry.Manager, faults: Faults)
    ensures ServeIpc(["abc"], {}, 0).replies == [Reply(ReplyText("abc"), true)]
    ensures Serve(Corrected, ParseAll(["abc"]), m, faults, {}, 0).replies == []
  {
    assert ParseAll(["abc"])[0].count == Decimal.Atoi("abc");
    assert !Decimal.IsDigit('c');
    assert Decimal.Atoi("abc").None? by {
      assert Decimal.SplitSign("abc").1 == "abc";
    }
  }
}
