/** Vocabulary shared by every part of the connection-lifecycle model. */
module Common {

  /** Opaque identity of one WebSocket connection (the `*websocket.Conn` pointer). */
  type ConnId = nat

  datatype Option<+T> = None | Some(value: T)

  /** A computation that either completes or panics. */
  datatype Outcome<+T> = Done(value: T) | Panic(kind: PanicKind)

  /** Close status "going away" (section 7.4.1 of RFC 6455), sent on every server-side drain. */
  const GoingAway: nat := 1001

  /** The reason text carried by every drain close frame. */
  const ShutdownReason: string := "Server shutting down"

  /** The ways the Go code panics in this core. A panic in a handler goroutine
      ends that goroutine; outside `net/http` it ends the whole process. */
  datatype PanicKind =
    | ClosedChannelClosed   // `close` of an already closed shutdown channel
    | NegativeLength        // `make([]T, n)` with n < 0
    | IndexOutOfRange       // `slices.Delete(s, i, i+1)` with i outside [0, len(s))
    | NilConnection         // a method call that dereferences a nil connection
    | SliceOutOfRange       // `string(message)[:9]` on a message shorter than 9 bytes

  /** What a drain does, in order: raise the shutdown flag, then for each
      connection a close frame and a transport close, each of which may fail
      without stopping the batch. */
  datatype CloseEffect =
    | RaiseShutdown
    | SendClose(conn: ConnId, code: nat, reason: string, ok: bool)
    | CloseTransport(conn: ConnId, ok: bool)

  /** Which connections' close-frame writes and transport closes fail. */
  datatype Faults = Faults(sendFails: set<ConnId>, closeFails: set<ConnId>)

  /** Selects the definition as the source writes it, or the corrected one
      for the defects listed in the README's findings. */
  datatype Variant = AsWritten | Corrected

  /** The two effects of draining one connection. */
  function CloseOne(c: ConnId, faults: Faults): seq<CloseEffect>
  {
    [SendClose(c, GoingAway, ShutdownReason, c !in faults.sendFails),
     CloseTransport(c, c !in faults.closeFails)]
  }

  /** The effects of draining `conns` one after another. */
  function CloseEach(conns: seq<ConnId>, faults: Faults): (r: seq<CloseEffect>)
    ensures |r| == 2 * |conns|
    ensures RaiseShutdown !in r
  {
    if |conns| == 0 then [] else CloseOne(conns[0], faults) + CloseEach(conns[1..], faults)
  }

  /** A failure on one connection is only recorded: every listed connection
      still gets both its close frame and its transport close, in list
      order. */
  lemma {:induction false} CloseEachEffects(conns: seq<ConnId>, faults: Faults)
    ensures forall i :: 0 <= i < |conns| ==>
              CloseEach(conns, faults)[2 * i] == SendClose(conns[i], GoingAway, ShutdownReason, conns[i] !in faults.sendFails)
    ensures forall i :: 0 <= i < |conns| ==>
              CloseEach(conns, faults)[2 * i + 1] == CloseTransport(conns[i], conns[i] !in faults.closeFails)
  {
    if |conns| > 0 {
      CloseEachEffects(conns[1..], faults);
      assert forall i :: 1 <= i < |conns| ==> conns[1..][i - 1] == conns[i];
    }
  }

  lemma CloseEachOne(c: ConnId, faults: Faults)
    ensures CloseEach([c], faults) == CloseOne(c, faults)
  {
    assert [c][1..] == [];
  }

  lemma {:induction false} CloseEachAppend(a: seq<ConnId>, b: seq<ConnId>, faults: Faults)
    ensures CloseEach(a + b, faults) == CloseEach(a, faults) + CloseEach(b, faults)
  {
    if |a| == 0 {
      assert a + b == b;
    } else {
      assert (a + b)[1..] == a[1..] + b;
      CloseEachAppend(a[1..], b, faults);
    }
  }

  function Min(a: int, b: int): int
  {
    if a < b then a else b
  }

  /** True when `s` starts with `p`. */
  predicate HasPrefix(s: string, p: string)
  {
    |p| <= |s| && s[..|p|] == p
  }
}
