/** The insertion-ordered connection registry (`connmanager.ConnectionManager`)
    that the TCP control channel drains. The slice is a sequence of slots,
    nil or a connection. Both drains delete by loop index from a slice that
    shrinks under them; the corrected drains remove the oldest entries. */
module SliceRegistry {
  import opened Common

  datatype Slot = Nil | Live(id: ConnId)

  /** The slice of slots and whether the shutdown channel has been closed. */
  datatype Manager = Manager(slots: seq<Slot>, shutdown: bool)

  /** Length of the slice `NewConnectionManager` allocates. */
  const PrefilledSlots: nat := 100

  /** What a drain did: the manager it left, its effects in order, and the
      panic that cut it short, if any. */
  datatype DrainRun = DrainRun(after: Manager, effects: seq<CloseEffect>, panicked: Option<PanicKind>)

  predicate AllLive(s: seq<Slot>)
  {
    forall i :: 0 <= i < |s| ==> s[i].Live?
  }

  /** The connections of a nil-free slice, in order. */
  function Ids(s: seq<Slot>): (r: seq<ConnId>)
    requires AllLive(s)
    ensures |r| == |s| && forall i :: 0 <= i < |s| ==> s[i] == Live(r[i])
  {
    seq(|s|, i requires 0 <= i < |s| => s[i].id)
  }

  /** The connections of a slice in order, nil slots skipped. */
  function LiveIds(s: seq<Slot>): (r: seq<ConnId>)
    ensures |r| <= |s|
  {
    if |s| == 0 then []
    else
      var rest := LiveIds(s[1..]);
      if s[0].Live? then [s[0].id] + rest else rest
  }

  /** Without nil slots, nothing is skipped. */
  lemma {:induction false} LiveIdsAllLive(s: seq<Slot>)
    requires AllLive(s)
    ensures LiveIds(s) == Ids(s)
  {
    if |s| > 0 {
      LiveIdsAllLive(s[1..]);
      assert Ids(s) == [s[0].id] + Ids(s[1..]);
    }
  }

  lemma {:induction false} LiveIdsAppend(a: seq<Slot>, b: seq<Slot>)
    ensures LiveIds(a + b) == LiveIds(a) + LiveIds(b)
  {
    if |a| > 0 {
      assert (a + b)[1..] == a[1..] + b;
      LiveIdsAppend(a[1..], b);
    } else {
      assert a + b == b;
    }
  }

  /** `NewConnectionManager`: the slice is made with length 100, not
      capacity 100, so a fresh manager already holds 100 nil slots. */
  function NewAsWritten(): (m: Manager)
    ensures Count(m) == PrefilledSlots && !m.shutdown
    ensures forall i :: 0 <= i < |m.slots| ==> m.slots[i] == Nil
  {
    Manager(seq(PrefilledSlots, _ => Nil), false)
  }

  /** The evidently intended fresh manager: no connections at all. */
  function NewCorrected(): (m: Manager)
    ensures Count(m) == 0 && !m.shutdown
  {
    Manager([], false)
  }

  function New(v: Variant): Manager
  {
    match v
    case AsWritten => NewAsWritten()
    case Corrected => NewCorrected()
  }

  /** `GetConnectionsCount`: the slice length, nil slots included. */
  function Count(m: Manager): nat
  {
    |m.slots|
  }

  lemma {:induction false} LiveIdsLength(s: seq<Slot>)
    ensures |LiveIds(s)| == |s| <==> AllLive(s)
  {
    if |s| > 0 {
      LiveIdsLength(s[1..]);
      if AllLive(s[1..]) && s[0].Live? {
        assert forall i :: 1 <= i < |s| ==> s[i] == s[1..][i - 1];
      }
      if AllLive(s) {
        assert forall i :: 0 <= i < |s| - 1 ==> s[1..][i] == s[i + 1];
      }
    }
  }

  /** The count is never below the number of live connections, and it
      equals it exactly when no slot is nil: on a fresh manager it reports
      100 connections while there are none. */
  lemma CountCountsNil(m: Manager)
    ensures Count(m) >= |LiveIds(m.slots)|
    ensures Count(m) == |LiveIds(m.slots)| <==> AllLive(m.slots)
    ensures Count(NewAsWritten()) == PrefilledSlots && LiveIds(NewAsWritten().slots) == []
  {
    LiveIdsLength(m.slots);
    NewHasNoLive(NewAsWritten().slots);
  }

  lemma {:induction false} NewHasNoLive(s: seq<Slot>)
    requires forall i :: 0 <= i < |s| ==> s[i] == Nil
    ensures LiveIds(s) == []
  {
    if |s| > 0 {
      NewHasNoLive(s[1..]);
    }
  }

  /** `AddConnection`: appends at the end; it does not look for duplicates. */
  function Add(m: Manager, c: ConnId): (m': Manager)
    ensures Count(m') == Count(m) + 1
    ensures m'.slots[..Count(m)] == m.slots && m'.slots[Count(m)] == Live(c)
    ensures m'.shutdown == m.shutdown
  {
    Manager(m.slots + [Live(c)], m.shutdown)
  }

  /** Adds the connections in order. */
  function AddAll(m: Manager, cs: seq<ConnId>): (m': Manager)
    ensures m'.slots == m.slots + seq(|cs|, i requires 0 <= i < |cs| => Live(cs[i]))
    ensures m'.shutdown == m.shutdown
    decreases |cs|
  {
    if |cs| == 0 then m else AddAll(Add(m, cs[0]), cs[1..])
  }

  /** `RemoveConnection(i)`, that is `slices.Delete(s, i, i+1)`: deletes
      exactly entry i and keeps the others in order; an index outside the
      slice panics. */
  function RemoveAt(m: Manager, i: int): (r: Outcome<Manager>)
    ensures r.Panic? <==> !(0 <= i < Count(m))
    ensures r.Panic? ==> r.kind == IndexOutOfRange
    ensures r.Done? ==>
              && Count(r.value) == Count(m) - 1
              && r.value.shutdown == m.shutdown
              && (forall j :: 0 <= j < i ==> r.value.slots[j] == m.slots[j])
              && (forall j :: i <= j < Count(r.value) ==> r.value.slots[j] == m.slots[j + 1])
  {
    if 0 <= i < |m.slots| then Done(Manager(m.slots[..i] + m.slots[i + 1..], m.shutdown))
    else Panic(IndexOutOfRange)
  }

  /** `GetFirstNConnections(n)`: `make` of length n (negative n panics), then
      `copy` of the first min(n, len) slots; the rest stay nil. */
  function FirstN(m: Manager, n: int): (r: Outcome<seq<Slot>>)
    ensures r.Panic? <==> n < 0
    ensures r.Panic? ==> r.kind == NegativeLength
    ensures r.Done? ==>
              && |r.value| == n
              && (forall i :: 0 <= i < n && i < Count(m) ==> r.value[i] == m.slots[i])
              && (forall i :: Count(m) <= i < n ==> r.value[i] == Nil)
  {
    if n < 0 then Panic(NegativeLength)
    else
      var k := if n < |m.slots| then n else |m.slots|;
      Done(m.slots[..k] + seq(n - k, _ => Nil))
  }

  // ---------------------------------------------------------------------
  // Index-shifting removal

  /** The slice after the loop has removed index 0, 1, ..., k-1 of the
      shrinking slice: entries 0, 2, ..., 2k-2 of the original are gone, so
      the odd entries before 2k survive, followed by the untouched tail. */
  function Survivors(s: seq<Slot>, k: nat): (r: seq<Slot>)
    requires 2 * k <= |s| + 1
    ensures |r| == |s| - k
  {
    seq(|s| - k, j requires 0 <= j < |s| - k => if j < k then s[2 * j + 1] else s[j + k])
  }

  lemma SurvivorsZero(s: seq<Slot>)
    ensures Survivors(s, 0) == s
  {
  }

  /** Deleting index k from the survivors of k removals gives the survivors
      of k + 1 removals. */
  lemma SurvivorsStep(s: seq<Slot>, k: nat, shutdown: bool)
    requires 2 * k < |s|
    ensures RemoveAt(Manager(Survivors(s, k), shutdown), k) == Done(Manager(Survivors(s, k + 1), shutdown))
  {
    var r := RemoveAt(Manager(Survivors(s, k), shutdown), k);
    assert r.value.slots == Survivors(s, k + 1);
  }

  /** Entry 2j of the original slice, the one the j-th removal deletes. */
  function EvenSlot(s: seq<Slot>, j: nat): Slot
    requires 2 * j < |s|
  {
    s[2 * j]
  }

  predicate EvensLive(s: seq<Slot>, k: nat)
    requires 2 * k <= |s| + 1
  {
    forall j :: 0 <= j < k ==> EvenSlot(s, j).Live?
  }

  /** The connections at entries 0, 2, ..., 2k-2. */
  function EvenIds(s: seq<Slot>, k: nat): (r: seq<ConnId>)
    requires 2 * k <= |s| + 1 && EvensLive(s, k)
    ensures |r| == k && forall j :: 0 <= j < k ==> EvenSlot(s, j) == Live(r[j])
  {
    seq(k, j requires 0 <= j < k => EvenSlot(s, j).id)
  }

  // ---------------------------------------------------------------------
  // CloseFirstNConnections as written

  /** The loop over the copy of the first n slots: close `copy[i]`, then
      `RemoveConnection(i)` on the current, already shrunk, slice. */
  function CopyLoop(copy: seq<Slot>, i: nat, m: Manager, faults: Faults): (r: DrainRun)
    requires i <= |copy|
    ensures r.after.shutdown == m.shutdown
    decreases |copy| - i
  {
    if i == |copy| then DrainRun(m, [], None)
    else
      match copy[i]
      case Nil => DrainRun(m, [], Some(NilConnection))
      case Live(c) =>
        var fx := CloseOne(c, faults);
        match RemoveAt(m, i)
        case Panic(k) => DrainRun(m, fx, Some(k))
        case Done(m') =>
          var rest := CopyLoop(copy, i + 1, m', faults);
          DrainRun(rest.after, fx + rest.effects, rest.panicked)
  }

  /** `CloseFirstNConnections(n)` as written. */
  function CloseFirstNAsWritten(m: Manager, n: int, faults: Faults): (r: DrainRun)
    ensures r.after.shutdown == m.shutdown
    ensures n < 0 ==> r == DrainRun(m, [], Some(NegativeLength))
  {
    match FirstN(m, n)
    case Panic(k) => DrainRun(m, [], Some(k))
    case Done(copy) => CopyLoop(copy, 0, m, faults)
  }

  /** Running the loop from iteration i to iteration k: it closes the
      original entries i..k-1 while the slice becomes the survivors of k
      removals. */
  lemma {:induction false} CopyLoopShifts(s: seq<Slot>, shutdown: bool, copy: seq<Slot>, i: nat, k: nat, faults: Faults)
    requires i <= k <= |copy| && k <= |s| && 2 * k <= |s| + 1
    requires copy[..k] == s[..k] && AllLive(s[..k])
    ensures
      var r := CopyLoop(copy, i, Manager(Survivors(s, i), shutdown), faults);
      var t := CopyLoop(copy, k, Manager(Survivors(s, k), shutdown), faults);
      r == DrainRun(t.after, CloseEach(Ids(s[i..k]), faults) + t.effects, t.panicked)
    decreases k - i
  {
    if i == k {
      assert s[i..k] == [];
    } else {
      assert copy[i] == s[..k][i] == s[i];
      assert s[..k][i].Live?;
      var c := s[i].id;
      SurvivorsStep(s, i, shutdown);
      CopyLoopLive(copy, i, Manager(Survivors(s, i), shutdown), Manager(Survivors(s, i + 1), shutdown), c, faults);
      CopyLoopShifts(s, shutdown, copy, i + 1, k, faults);
      var t := CopyLoop(copy, k, Manager(Survivors(s, k), shutdown), faults);
      assert s[i..k][1..] == s[i + 1..k];
      CloseIdsHead(s[i..k], faults, t.effects);
    }
  }

  /** Closing the connections of a nil-free run is closing its first one,
      then the rest. */
  lemma CloseIdsHead(u: seq<Slot>, faults: Faults, tail: seq<CloseEffect>)
    requires |u| > 0 && AllLive(u)
    ensures AllLive(u[1..])
    ensures CloseEach(Ids(u), faults) + tail == CloseOne(u[0].id, faults) + (CloseEach(Ids(u[1..]), faults) + tail)
  {
    IdsTail(u);
    assert CloseEach(Ids(u), faults) == CloseOne(u[0].id, faults) + CloseEach(Ids(u)[1..], faults);
  }

  /** One iteration of the copy loop on a live entry whose removal succeeds. */
  lemma CopyLoopLive(copy: seq<Slot>, i: nat, m: Manager, m': Manager, c: ConnId, faults: Faults)
    requires i < |copy| && copy[i] == Live(c) && RemoveAt(m, i) == Done(m')
    ensures
      var rest := CopyLoop(copy, i + 1, m', faults);
      CopyLoop(copy, i, m, faults) == DrainRun(rest.after, CloseOne(c, faults) + rest.effects, rest.panicked)
  {
  }

  lemma IdsTail(u: seq<Slot>)
    requires |u| > 0 && AllLive(u)
    ensures Ids(u)[0] == u[0].id && Ids(u)[1..] == Ids(u[1..])
  {
    assert forall j :: 0 <= j < |u| - 1 ==> Ids(u)[1..][j] == u[1..][j].id;
  }


  /** When nothing panics, the first n connections are closed, but the
      entries removed from the registry are the original entries 0, 2, ...,
      2n-2: the registry keeps the odd entries before 2n. */
  lemma CloseFirstNAsWrittenShifts(m: Manager, n: int, faults: Faults)
    requires 0 <= n && 2 * n <= Count(m) + 1 && AllLive(m.slots[..n])
    ensures CloseFirstNAsWritten(m, n, faults)
         == DrainRun(Manager(Survivors(m.slots, n), m.shutdown), CloseEach(Ids(m.slots[..n]), faults), None)
  {
    var copy := FirstN(m, n).value;
    assert copy[..n] == m.slots[..n];
    SurvivorsZero(m.slots);
    CopyLoopShifts(m.slots, m.shutdown, copy, 0, n, faults);
    assert m.slots[0..n] == m.slots[..n];
  }

  /** When n is more than half the registry, the loop runs off the shrunken
      slice at iteration ceil(len/2) and panics there. */
  lemma CloseFirstNAsWrittenOverruns(m: Manager, n: int, faults: Faults)
    requires AllLive(m.slots) && 2 * n > Count(m) + 1
    ensures
      var k := (Count(m) + 1) / 2;
      var r := CloseFirstNAsWritten(m, n, faults);
      && r.panicked == Some(if Count(m) >= 2 then IndexOutOfRange else NilConnection)
      && r.after == Manager(Survivors(m.slots, k), m.shutdown)
  {
    var s := m.slots;
    var k := (|s| + 1) / 2;
    var copy := FirstN(m, n).value;
    assert copy[..k] == s[..k];
    SurvivorsZero(s);
    CopyLoopShifts(s, m.shutdown, copy, 0, k, faults);
    var t := CopyLoop(copy, k, Manager(Survivors(s, k), m.shutdown), faults);
    if |s| >= 2 {
      assert copy[k] == s[k];
      assert t.panicked == Some(IndexOutOfRange);
    } else {
      assert copy[k] == Nil;
    }
  }

  /** Registering C1, C2, C3 and draining two: C1 and C2 are closed, yet C1
      and C3 leave the registry, so C2 stays registered though closed and C3
      is dropped though still open. */
  lemma CloseFirstNAsWrittenExample(faults: Faults)
    ensures
      var m := Manager([Live(1), Live(2), Live(3)], false);
      var r := CloseFirstNAsWritten(m, 2, faults);
      && r.panicked == None
      && r.after.slots == [Live(2)]
      && r.effects == CloseOne(1, faults) + CloseOne(2, faults)
  {
    var m := Manager([Live(1), Live(2), Live(3)], false);
    CloseFirstNAsWrittenShifts(m, 2, faults);
    assert m.slots[..2] == [Live(1), Live(2)];
    assert Ids(m.slots[..2]) == [1, 2];
    assert CloseEach([1, 2], faults) == CloseOne(1, faults) + CloseOne(2, faults);
    assert Survivors(m.slots, 2) == [Live(2)];
  }

  /** A manager whose oldest slot is nil makes the drain panic on its first
      iteration, before it closes or removes anything. */
  lemma LeadingNilDrainPanics(m: Manager, n: int, faults: Faults)
    requires Count(m) > 0 && m.slots[0] == Nil && n >= 1
    ensures CloseFirstNAsWritten(m, n, faults) == DrainRun(m, [], Some(NilConnection))
  {
    var copy := FirstN(m, n).value;
    assert copy[0] == Nil;
  }

  /** Every manager built by `NewConnectionManager`, whatever connections
      were added to it afterwards, starts with a prefilled nil slot, so no
      drain of one or more connections ever closes anything. */
  lemma FreshManagerDrainPanics(cs: seq<ConnId>, n: int, faults: Faults)
    requires n >= 1
    ensures
      var m := AddAll(NewAsWritten(), cs);
      CloseFirstNAsWritten(m, n, faults) == DrainRun(m, [], Some(NilConnection))
  {
    var m := AddAll(NewAsWritten(), cs);
    assert m.slots[0] == Nil;
    LeadingNilDrainPanics(m, n, faults);
  }

  // ---------------------------------------------------------------------
  // CloseFirstNConnections as evidently intended

  /** Closes and removes the `count` oldest slots one at a time (nil slots
      are removed without a close). */
  function CloseOldestLoop(m: Manager, count: nat, faults: Faults): (r: DrainRun)
    requires count <= Count(m)
    ensures r.panicked.None?
    ensures r.after == Manager(m.slots[count..], m.shutdown)
    ensures r.effects == CloseEach(LiveIds(m.slots[..count]), faults)
    decreases count
  {
    if count == 0 then DrainRun(m, [], None)
    else
      var fx := if m.slots[0].Live? then CloseOne(m.slots[0].id, faults) else [];
      var m' := RemoveAt(m, 0).value;
      var rest := CloseOldestLoop(m', count - 1, faults);
      OldestHead(m, count, faults);
      DrainRun(rest.after, fx + rest.effects, None)
  }

  /** Removing the oldest slot and draining count - 1 more is draining count. */
  lemma OldestHead(m: Manager, count: nat, faults: Faults)
    requires 0 < count <= Count(m)
    ensures RemoveAt(m, 0).Done?
    ensures
      var m' := RemoveAt(m, 0).value;
      var fx := if m.slots[0].Live? then CloseOne(m.slots[0].id, faults) else [];
      && m'.slots[count - 1..] == m.slots[count..]
      && m'.shutdown == m.shutdown
      && CloseEach(LiveIds(m.slots[..count]), faults) == fx + CloseEach(LiveIds(m'.slots[..count - 1]), faults)
  {
    var s := m.slots;
    var m' := RemoveAt(m, 0).value;
    var t := s[1..][..count - 1];
    assert m'.slots == s[1..];
    HeadTail(s, count);
    LiveIdsAppend([s[0]], t);
    LiveIdsOne(s[0]);
    CloseEachAppend(LiveIds([s[0]]), LiveIds(t), faults);
    if s[0].Live? {
      CloseEachOne(s[0].id, faults);
    }
  }

  lemma HeadTail(s: seq<Slot>, count: nat)
    requires 0 < count <= |s|
    ensures s[..count] == [s[0]] + s[1..][..count - 1]
  {
    var u := [s[0]] + s[1..][..count - 1];
    assert |u| == count;
    forall j | 0 <= j < count
      ensures s[..count][j] == u[j]
    {
      if j > 0 {
        assert u[j] == s[1..][..count - 1][j - 1];
      }
    }
  }

  lemma LiveIdsOne(x: Slot)
    ensures LiveIds([x]) == (if x.Live? then [x.id] else [])
  {
    assert [x][1..] == [];
  }

  /** `CloseFirstNConnections(n)` corrected: the min(n, len) oldest
      connections are closed and removed, and nothing else changes. A
      negative count still panics in `make`. */
  function CloseOldest(m: Manager, n: int, faults: Faults): (r: DrainRun)
    ensures n < 0 ==> r == DrainRun(m, [], Some(NegativeLength))
    ensures n >= 0 ==>
              var k := if n < Count(m) then n else Count(m);
              && r.panicked.None?
              && r.after == Manager(m.slots[k..], m.shutdown)
              && r.effects == CloseEach(LiveIds(m.slots[..k]), faults)
  {
    if n < 0 then DrainRun(m, [], Some(NegativeLength))
    else CloseOldestLoop(m, if n < |m.slots| then n else |m.slots|, faults)
  }

  /** The partial drain the control channel invokes: a negative count
      panics in `make` and changes nothing, the corrected drain never panics
      otherwise, and neither touches the shutdown flag. */
  function DrainFirstN(v: Variant, m: Manager, n: int, faults: Faults): (r: DrainRun)
    ensures r.after.shutdown == m.shutdown
    ensures n < 0 ==> r == DrainRun(m, [], Some(NegativeLength))
    ensures v == Corrected && n >= 0 ==> r.panicked.None?
  {
    match v
    case AsWritten => CloseFirstNAsWritten(m, n, faults)
    case Corrected => CloseOldest(m, n, faults)
  }

  /** The scenario C1, C2, C3 then a drain of two, corrected: C1 and C2 are
      closed and removed and C3 alone remains. */
  lemma CloseOldestExample(faults: Faults)
    ensures
      var m := AddAll(NewCorrected(), [1, 2, 3]);
      var r := CloseOldest(m, 2, faults);
      && r.panicked == None
      && r.after.slots == [Live(3)]
      && r.effects == CloseOne(1, faults) + CloseOne(2, faults)
  {
    var m := AddAll(NewCorrected(), [1, 2, 3]);
    assert m.slots == [Live(1), Live(2), Live(3)];
    assert m.slots[..2] == [Live(1), Live(2)];
    assert LiveIds(m.slots[..2]) == [1, 2];
    assert CloseEach([1, 2], faults) == CloseOne(1, faults) + CloseOne(2, faults);
  }

  // ---------------------------------------------------------------------
  // CloseAllConnections

  /** What `slices.Delete` leaves in the element its shift vacates: before
      Go 1.22 the old value stays there; from Go 1.22 on it is cleared to
      nil. */
  datatype Release = BeforeGo122 | Go122OrLater

  /** `slices.Delete(s, i, i+1)` seen on the whole backing array `arr` of a
      slice of length `len`: entries i+1..len-1 move down one, the element
      at len-1 is vacated, and nothing past it changes. */
  function DeleteInArray(arr: seq<Slot>, len: nat, i: nat, rel: Release): (r: seq<Slot>)
    requires i < len <= |arr|
    ensures |r| == |arr|
    ensures r[..len - 1] == arr[..i] + arr[i + 1..len]
    ensures r[len - 1] == (if rel == BeforeGo122 then arr[len - 1] else Nil)
    ensures forall j :: len <= j < |arr| ==> r[j] == arr[j]
  {
    arr[..i] + arr[i + 1..len] + [if rel == BeforeGo122 then arr[len - 1] else Nil] + arr[len..]
  }

  /** What the range reads past the shrunken slice of `s`. */
  function Vacated(s: seq<Slot>, rel: Release): Slot
    requires |s| > 0
  {
    if rel == BeforeGo122 then s[|s| - 1] else Nil
  }

  /** One removal by the range loop, seen on the backing array: if the
      array holds the survivors of i removals followed by vacated elements,
      deleting index i leaves the survivors of i + 1 removals followed by
      vacated elements. Before Go 1.22 the element vacated is the last
      survivor, which is always the original last entry. */
  lemma BackingStep(s: seq<Slot>, arr: seq<Slot>, i: nat, rel: Release)
    requires 2 * i < |s| && |arr| == |s|
    requires arr[..|s| - i] == Survivors(s, i)
    requires forall j :: |s| - i <= j < |s| ==> arr[j] == Vacated(s, rel)
    ensures arr[i] == EvenSlot(s, i)
    ensures
      var arr' := DeleteInArray(arr, |s| - i, i, rel);
      && arr'[..|s| - i - 1] == Survivors(s, i + 1)
      && forall j :: |s| - i - 1 <= j < |s| ==> arr'[j] == Vacated(s, rel)
  {
    var len := |s| - i;
    var after := Survivors(s, i);
    assert arr[i] == after[i];
    assert after[len - 1] == s[|s| - 1];
    assert arr[len - 1] == after[len - 1];
    SurvivorsStep(s, i, true);
    assert arr[..i] == after[..i] && arr[i + 1..len] == after[i + 1..];
  }

  /** Removing live entry 2i extends the closed connections by it. */
  lemma EvenIdsStep(s: seq<Slot>, i: nat, faults: Faults)
    requires 2 * i < |s| && EvensLive(s, i) && s[2 * i].Live?
    ensures EvensLive(s, i + 1)
    ensures CloseEach(EvenIds(s, i + 1), faults) == CloseEach(EvenIds(s, i), faults) + CloseOne(s[2 * i].id, faults)
  {
    assert EvenIds(s, i + 1) == EvenIds(s, i) + [s[2 * i].id];
    CloseEachAppend(EvenIds(s, i), [s[2 * i].id], faults);
    CloseEachOne(s[2 * i].id, faults);
  }

  /** While i is inside the slice, the range reads the original entry 2i. */
  lemma RangeReadsEven(s: seq<Slot>, arr: seq<Slot>, i: nat)
    requires 2 * i <= |s| + 1 && |arr| == |s| && arr[..|s| - i] == Survivors(s, i)
    ensures i < |s| - i ==> arr[i] == s[2 * i]
  {
    if i < |s| - i {
      assert arr[i] == Survivors(s, i)[i];
    }
  }

  /** `CloseAllConnections` as written: close the shutdown channel (a second
      call panics), then range over the slice, closing entry i and calling
      `RemoveConnection(i)`. The range fixes the length once and reads the
      shared backing array, so it sees the shifted entries. Once i reaches
      the shrunken length it reads the element past the end: from Go 1.22
      on that is a cleared nil, whose close panics; before, it is the stale
      last connection, which is closed before its out-of-range removal
      panics. */
  method CloseAllAsWritten(m: Manager, faults: Faults, rel: Release) returns (r: DrainRun)
    ensures m.shutdown ==> r == DrainRun(m, [], Some(ClosedChannelClosed))
    ensures !m.shutdown ==> r.after.shutdown && |r.effects| > 0 && r.effects[0] == RaiseShutdown
    ensures !m.shutdown && AllLive(m.slots) ==>
              var k := (Count(m) + 1) / 2;
              var evens := [RaiseShutdown] + CloseEach(EvenIds(m.slots, k), faults);
              && r.after.slots == Survivors(m.slots, k)
              && (Count(m) <= 1 ==> r.panicked.None? && r.effects == evens)
              && (Count(m) >= 2 && rel == Go122OrLater ==>
                    r.panicked == Some(NilConnection) && r.effects == evens)
              && (Count(m) >= 2 && rel == BeforeGo122 ==>
                    && r.panicked == Some(IndexOutOfRange)
                    && r.effects == evens + CloseOne(m.slots[Count(m) - 1].id, faults))
    ensures !m.shutdown && Count(m) > 0 && m.slots[0] == Nil ==>
              r == DrainRun(Manager(m.slots, true), [RaiseShutdown], Some(NilConnection))
    ensures r.panicked.None? ==> Count(r.after) == 0
  {
    if m.shutdown {
      return DrainRun(m, [], Some(ClosedChannelClosed));
    }
    var after, effects, panicked := RangeRemove(m.slots, faults, rel);
    return DrainRun(Manager(after, true), [RaiseShutdown] + effects, panicked);
  }

  /** The range loop of `CloseAllConnections` over a slice `s`: the slice
      left, the close effects, and the panic that ends it, if any. */
  method RangeRemove(s: seq<Slot>, faults: Faults, rel: Release) returns (after: seq<Slot>, effects: seq<CloseEffect>, panicked: Option<PanicKind>)
    ensures AllLive(s) ==>
              var k := (|s| + 1) / 2;
              && after == Survivors(s, k)
              && (|s| <= 1 ==> panicked.None? && effects == CloseEach(EvenIds(s, k), faults))
              && (|s| >= 2 && rel == Go122OrLater ==>
                    panicked == Some(NilConnection) && effects == CloseEach(EvenIds(s, k), faults))
              && (|s| >= 2 && rel == BeforeGo122 ==>
                    && panicked == Some(IndexOutOfRange)
                    && effects == CloseEach(EvenIds(s, k), faults) + CloseOne(s[|s| - 1].id, faults))
    ensures |s| > 0 && s[0] == Nil ==> after == s && effects == [] && panicked == Some(NilConnection)
    ensures panicked.None? ==> |after| == 0
  {
    var i, arr;
    i, arr, effects := RemoveWhileLive(s, faults, rel);
    after := arr[..|s| - i];
    RangeReadsEven(s, arr, i);
    if AllLive(s) {
      // the loop stopped on a live entry, so past the slice
      assert i >= |s| - i && i == (|s| + 1) / 2;
    }
    if |s| > 0 && s[0] == Nil {
      assert after == s && arr[0] == Nil && effects == [];
    }
    if i == |s| {
      return after, effects, None;
    }
    // entry i of the backing array: a slot of the slice, or the vacated
    // element past its end
    match arr[i]
    case Nil =>
      return after, effects, Some(NilConnection);
    case Live(c) =>
      return after, effects + CloseOne(c, faults), Some(IndexOutOfRange);
  }

  /** The iterations of the range loop that read a live entry of the
      shrinking slice and remove it: they stop at the first iteration that
      reads a nil or reads past the slice. `arr` is the backing array; the
      slice is its first |s| - i entries. */
  method RemoveWhileLive(s: seq<Slot>, faults: Faults, rel: Release) returns (i: nat, arr: seq<Slot>, effects: seq<CloseEffect>)
    ensures 2 * i <= |s| + 1 && |arr| == |s|
    ensures arr[..|s| - i] == Survivors(s, i)
    ensures forall j :: |s| - i <= j < |s| ==> arr[j] == Vacated(s, rel)
    ensures EvensLive(s, i) && effects == CloseEach(EvenIds(s, i), faults)
    ensures !(i < |s| - i && arr[i].Live?)
    ensures |s| > 0 && s[0] == Nil ==> i == 0
  {
    arr := s;
    effects := [];
    i := 0;
    SurvivorsZero(s);
    while i < |s| - i && arr[i].Live?
      invariant 2 * i <= |s| + 1 && |arr| == |s|
      invariant arr[..|s| - i] == Survivors(s, i)
      invariant forall j :: |s| - i <= j < |s| ==> arr[j] == Vacated(s, rel)
      invariant EvensLive(s, i)
      invariant effects == CloseEach(EvenIds(s, i), faults)
      decreases |s| - i
    {
      BackingStep(s, arr, i, rel);
      EvenIdsStep(s, i, faults);
      effects := effects + CloseOne(arr[i].id, faults);
      arr := DeleteInArray(arr, |s| - i, i, rel);
      i := i + 1;
    }
  }

  /** With two registered connections the as-written drain closes C1,
      removes it, and reads past the shrunken slice: from Go 1.22 on it
      meets a nil and panics; before, it closes C2 and panics removing it,
      which leaves C2 registered though closed. */
  method CloseAllAsWrittenExample(faults: Faults, rel: Release) returns (r: DrainRun)
    ensures r.after == Manager([Live(2)], true)
    ensures rel == Go122OrLater ==>
              r.effects == [RaiseShutdown] + CloseOne(1, faults) && r.panicked == Some(NilConnection)
    ensures rel == BeforeGo122 ==>
              && r.effects == [RaiseShutdown] + CloseOne(1, faults) + CloseOne(2, faults)
              && r.panicked == Some(IndexOutOfRange)
  {
    var s := [Live(1), Live(2)];
    r := CloseAllAsWritten(Manager(s, false), faults, rel);
    assert Survivors(s, 1) == [Live(2)];
    assert EvenIds(s, 1) == [1];
  }

  /** `CloseAllConnections` corrected: the shutdown flag is raised once
      (raising it again is a no-op, not a panic), every connection is closed
      in registration order, and the registry is left empty. */
  function CloseAllCorrected(m: Manager, faults: Faults): (r: DrainRun)
    ensures r.panicked.None?
    ensures r.after == Manager([], true)
    ensures r.effects == (if m.shutdown then [] else [RaiseShutdown]) + CloseEach(LiveIds(m.slots), faults)
  {
    var run := CloseOldestLoop(m, |m.slots|, faults);
    assert m.slots[..|m.slots|] == m.slots;
    DrainRun(Manager([], true), (if m.shutdown then [] else [RaiseShutdown]) + run.effects, None)
  }

  /** A partial drain of at least the registry's size leaves the same empty
      registry and closes the same connections as the full drain; it differs
      only in leaving the shutdown flag alone. */
  lemma DrainNCoversDrainAll(m: Manager, n: int, faults: Faults)
    requires n >= Count(m)
    ensures CloseOldest(m, n, faults).after.slots == CloseAllCorrected(m, faults).after.slots == []
    ensures CloseOldest(m, n, faults).after.shutdown == m.shutdown
    ensures !m.shutdown ==> CloseAllCorrected(m, faults).effects == [RaiseShutdown] + CloseOldest(m, n, faults).effects
    ensures m.shutdown ==> CloseAllCorrected(m, faults).effects == CloseOldest(m, n, faults).effects
  {
    assert m.slots[..|m.slots|] == m.slots;
  }
}
