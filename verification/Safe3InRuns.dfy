/** What the Safe 3 IN endpoint gets done: when `iface_write` accepts a packet, that a packet it
    has found room for cannot be refused, and how an accepted packet reaches the host. */
module Safe3InRuns {
  import opened Common
  import opened Safe3In
  import opened Scripts

  /** These actions lead from `s` to `t`. */
  ghost predicate Leads(s: State, actions: seq<Action>, t: State) {
    Scripts.Leads(Step, s, actions, t)
  }

  lemma {:induction false} LeadsIsRun(s: State, actions: seq<Action>, t: State)
    ensures Leads(s, actions, t) <==> Run(s, actions) == t
    decreases |actions|
  {
    if actions != [] {
      LeadsIsRun(Step(s, actions[0]), actions[1..], t);
    }
  }

  // --------------------------------------------------------------- iface_write alone

  /** What `data` leaves in a buffer it is copied into. */
  function Overwritten(buffer: seq<byte>, data: Packet): seq<byte>
    requires |data| <= |buffer|
  {
    data + buffer[|data|..]
  }

  lemma {:induction false} WriteCopies(s: State, n: nat)
    requires s.status.Running? && s.core.WriteCopy? && n == |s.core.data| - s.core.k && s.slot.buffer.Some?
    requires var b := s.slot.buffer.value;
      |s.core.data| <= |b| && b[..s.core.k] == s.core.data[..s.core.k]
    ensures Leads(s, Repeat(CoreStep, n), Copied(s))
    decreases n
  {
    var data, b, k := s.core.data, s.slot.buffer.value, s.core.k;
    if n == 0 {
      assert Overwritten(b, data) == b[..|data|] + b[|data|..] == b;
    } else {
      CopyOneMore(b, data, k);
      assert b[k := data[k]][|data|..] == b[|data|..];
      var t := Step(s, CoreStep);
      Once(Step, s, CoreStep, t);
      WriteCopies(t, n - 1);
      Again(Step, s, CoreStep, 1, t, n - 1, Copied(s));
    }
  }

  /** iface_write at the end of its memcpy. */
  function Copied(s: State): State
    requires s.core.WriteCopy? && s.slot.buffer.Some? && |s.core.data| <= |s.slot.buffer.value|
  {
    s.(core := WriteCopy(s.core.data, |s.core.data|),
       slot := s.slot.(buffer := Some(Overwritten(s.slot.buffer.value, s.core.data))))
  }

  /** What is left behind when `iface_write` has accepted the packet in the buffer. */
  function Accepted(s: State, data: Packet): State {
    s.(core := Idle, mutex := Free,
       slot := s.slot.(occupied := true, length := |data|),
       hist := s.hist.(accepted := s.hist.accepted + [data]),
       helper := if s.helper.Asleep? then Woken else s.helper)
  }

  lemma SlotIsFilled(s: State)
    requires s.status.Running? && s.core.WriteCopy? && s.core.k == |s.core.data| < 0x1_0000
    ensures var data := s.core.data;
      Leads(s, Repeat(CoreStep, 3),
            s.(core := WriteSignal, slot := s.slot.(occupied := true, length := |data|),
               hist := s.hist.(accepted := s.hist.accepted + [data])))
  {
    var data := s.core.data;
    var measured := s.(core := WriteSetOccupied(data), slot := s.slot.(length := |data|));
    Thrice(Step, s, CoreStep, s.(core := WriteSetLength(data)), measured,
           measured.(core := WriteSignal, slot := measured.slot.(occupied := true),
                     hist := s.hist.(accepted := s.hist.accepted + [data])));
  }

  lemma HelperIsWoken(s: State)
    requires s.status.Running? && s.core.WriteSignal?
    ensures Leads(s, Repeat(CoreStep, 2),
                  s.(core := Idle, mutex := Free, helper := if s.helper.Asleep? then Woken else s.helper))
  {
    var woken := s.(core := WriteUnlock, helper := if s.helper.Asleep? then Woken else s.helper);
    Twice(Step, s, CoreStep, woken, woken.(core := Idle, mutex := Free));
  }

  lemma WriteEnds(s: State)
    requires s.status.Running? && s.core.WriteCopy? && s.core.k == |s.core.data| < 0x1_0000
    ensures Leads(s, Repeat(CoreStep, 5), Accepted(s, s.core.data))
  {
    var data := s.core.data;
    var full := s.(core := WriteSignal, slot := s.slot.(occupied := true, length := |data|),
                   hist := s.hist.(accepted := s.hist.accepted + [data]));
    SlotIsFilled(s);
    HelperIsWoken(full);
    Again(Step, s, CoreStep, 3, full, 2, Accepted(s, data));
  }

  lemma WriteFillsCopy(s: State)
    requires s.status.Running? && s.core.WriteCopy? && s.core.k == 0 && s.slot.buffer.Some?
    requires |s.core.data| <= |s.slot.buffer.value| < 0x1_0000
    ensures Leads(s, Repeat(CoreStep, |s.core.data| + 5), Accepted(Copied(s), s.core.data))
  {
    WriteCopies(s, |s.core.data|);
    WriteEnds(Copied(s));
    Again(Step, s, CoreStep, |s.core.data|, Copied(s), 5, Accepted(Copied(s), s.core.data));
  }

  lemma WriteFillsSlot(s: State)
    requires s.status.Running? && s.core.WriteLock? && s.mutex.Free? && !s.slot.occupied && s.slot.buffer.Some?
    requires |s.core.data| <= |s.slot.buffer.value| < 0x1_0000
    ensures var copying := s.(core := WriteCopy(s.core.data, 0), mutex := Core);
      Leads(s, Repeat(CoreStep, |s.core.data| + 7), Accepted(Copied(copying), s.core.data))
  {
    var data := s.core.data;
    var copying := s.(core := WriteCopy(data, 0), mutex := Core);
    Twice(Step, s, CoreStep, s.(core := WriteTest(data), mutex := Core), copying);
    WriteFillsCopy(copying);
    Again(Step, s, CoreStep, 2, copying, |data| + 5, Accepted(Copied(copying), data));
  }

  lemma WriteFindsNoRoom(s: State)
    requires s.status.Running? && s.core.WriteLock? && s.mutex.Free? && s.slot.occupied
    ensures Leads(s, Repeat(CoreStep, 3), s.(core := Idle))
  {
    var locked := s.(core := WriteTest(s.core.data), mutex := Core);
    Thrice(Step, s, CoreStep, locked, locked.(core := WriteUnlock), s.(core := Idle));
  }

  /** Nothing stands between `iface_write` and the slot: the helper runs on an open eventfd,
      the packet fits, and the slot is empty. */
  predicate Accepts(s: State, data: Packet) {
    !s.helper.Absent? && !Forgotten(s) && |data| <= s.max && !s.slot.occupied
  }

  /** How many steps an undisturbed `iface_write` takes. */
  function WriteSteps(s: State, data: Packet): nat {
    if s.helper.Absent? || Forgotten(s) || |data| > s.max then 0
    else if s.slot.occupied then 3
    else |data| + 7
  }

  /** An undisturbed `iface_write` returns, with the mutex free. It has accepted the packet, put
      it into the slot whole and woken a sleeping helper, exactly when nothing stood in its way;
      otherwise it has changed nothing. */
  lemma WriteAcceptsExactly(s: State, data: Packet)
    requires Inv(s) && s.status.Running? && s.core.Idle? && s.mutex.Free?
    ensures var t := Run(s, [CallWrite(data)] + Repeat(CoreStep, WriteSteps(s, data)));
      && t.status.Running? && t.core.Idle? && t.mutex.Free?
      && (Accepts(s, data) <==> t.hist.accepted == s.hist.accepted + [data])
      && (Accepts(s, data) ==>
            && t.slot.occupied && t.slot.length == |data| <= |Bytes(t.slot)| && Bytes(t.slot)[..|data|] == data
            && t.hist == s.hist.(accepted := s.hist.accepted + [data])
            && t.helper == if s.helper.Asleep? then Woken else s.helper)
      && (!Accepts(s, data) ==> t == s)
  {
    var t := WriteResult(s, data);
    WriteLeads(s, data);
    LeadsIsRun(s, [CallWrite(data)] + Repeat(CoreStep, WriteSteps(s, data)), t);
  }

  function WriteResult(s: State, data: Packet): State
    requires Inv(s)
  {
    if Accepts(s, data) then Accepted(Copied(s.(core := WriteCopy(data, 0), mutex := Core)), data) else s
  }

  lemma WriteLeads(s: State, data: Packet)
    requires Inv(s) && s.status.Running? && s.core.Idle? && s.mutex.Free?
    ensures Leads(s, [CallWrite(data)] + Repeat(CoreStep, WriteSteps(s, data)), WriteResult(s, data))
  {
    var called := s.(core := WriteLock(data));
    if Accepts(s, data) {
      WriteFillsSlot(called);
      First(Step, s, CallWrite(data), called, Repeat(CoreStep, |data| + 7), WriteResult(s, data));
    } else if WriteSteps(s, data) == 3 {
      WriteFindsNoRoom(called);
      First(Step, s, CallWrite(data), called, Repeat(CoreStep, 3), s);
    } else {
      First(Step, s, CallWrite(data), s, Repeat(CoreStep, 0), s);
    }
  }

  // ------------------------------------------------------ iface_write among others

  /** Core is inside the `iface_write` of `data`, has found room and not filled it yet. */
  predicate Filling(c: CorePc, data: Packet) {
    (c.WriteTest? || c.WriteCopy? || c.WriteSetLength? || c.WriteSetOccupied?) && c.data == data
  }

  /** The action at `k` puts `data` into the slot. */
  predicate AcceptsAt(s: State, actions: seq<Action>, k: nat, data: Packet) {
    && k < |actions|
    && var f := Run(s, actions[..k]);
       var g := Step(f, actions[k]);
       && Filling(f.core, data)
       && Outstanding(f.slot, f.helper) == [] && Outstanding(g.slot, g.helper) == [data]
       && g.hist.accepted == f.hist.accepted + [data]
  }

  lemma RunPrefix(s: State, actions: seq<Action>, k: nat)
    requires 0 < k <= |actions|
    ensures Run(s, actions[..k]) == Run(Step(s, actions[0]), actions[1..][..k - 1])
  {
    assert actions[..k][1..] == actions[1..][..k - 1];
  }

  lemma CoreGoesOnFilling(s: State, data: Packet)
    requires Inv(s) && s.status.Running? && Filling(s.core, data) && !s.slot.occupied
    ensures var t := CoreNext(s);
      || (Filling(t.core, data) && !t.slot.occupied)
      || (&& Outstanding(s.slot, s.helper) == [] && Outstanding(t.slot, t.helper) == [data]
          && t.hist.accepted == s.hist.accepted + [data])
  {}

  lemma OthersLetItFill(s: State, a: Action, data: Packet)
    requires Inv(s) && s.status.Running? && Filling(s.core, data) && !s.slot.occupied && !a.CoreStep?
    ensures Step(s, a).core == s.core && !Step(s, a).slot.occupied
  {
    if a.HelperStep? {
      HelperLeavesCore(s);
    }
  }

  /** An `iface_write` that finds `occupied` clear under the lock cannot return without the
      packet having been accepted, whatever everybody else does meanwhile. */
  lemma {:induction false} FoundRoomIsFilled(s: State, actions: seq<Action>, data: Packet)
    requires Inv(s) && s.status.Running? && Filling(s.core, data) && !s.slot.occupied
    ensures var t := Run(s, actions);
      t.status.Running? ==> Filling(t.core, data) || exists k: nat :: AcceptsAt(s, actions, k, data)
    decreases |actions|
  {
    if actions != [] {
      var a := actions[0];
      var t := Step(s, a);
      StepKeepsInv(s, a);
      if a.CoreStep? {
        CoreGoesOnFilling(s, data);
      } else {
        OthersLetItFill(s, a, data);
      }
      if Filling(t.core, data) && !t.slot.occupied {
        FilledInRest(s, actions, data);
      } else {
        assert Run(s, actions[..0]) == s;
        assert AcceptsAt(s, actions, 0, data);
      }
    }
  }

  lemma {:induction false} FilledInRest(s: State, actions: seq<Action>, data: Packet)
    requires Inv(s) && s.status.Running? && actions != []
    requires var t := Step(s, actions[0]); Inv(t) && Filling(t.core, data) && !t.slot.occupied
    ensures var t := Run(s, actions);
      t.status.Running? ==> Filling(t.core, data) || exists k: nat :: AcceptsAt(s, actions, k, data)
    decreases |actions|, 0
  {
    var t, rest := Step(s, actions[0]), actions[1..];
    if t.status.Running? {
      FoundRoomIsFilled(t, rest, data);
      if k: nat :| AcceptsAt(t, rest, k, data) {
        RunPrefix(s, actions, k + 1);
        assert AcceptsAt(s, actions, k + 1, data);
      }
    } else {
      DeadStaysDead(t, rest);
    }
  }

  // ------------------------------------------------------------------- the helper

  /** The host has taken the packet and the helper is freeing the slot. */
  predicate Freeing(s: State) {
    s.status.Running? && !s.cancel && (s.helper.Relock? || s.helper.ClearLength? || s.helper.ClearOccupied?)
  }

  /** At some point of this run the slot is empty, unless a stop or the end of the process
      comes first. */
  predicate GetsFree(s: State, actions: seq<Action>)
    decreases |actions|
  {
    !s.slot.occupied || !s.status.Running? || s.cancel
    || (actions != [] && GetsFree(Step(s, actions[0]), actions[1..]))
  }

  function FreeRank(h: HelperPc): nat {
    if h.ClearOccupied? then 1 else if h.ClearLength? then 2 else 3
  }

  lemma FreeingGoesOn(s: State, a: Action)
    requires Inv(s) && Freeing(s)
    ensures var t := Step(s, a); GetsFree(t, []) || (Freeing(t) && FreeRank(t.helper) <= FreeRank(s.helper))
    ensures var t := Step(s, a);
      a.HelperStep? && !s.mutex.Core? ==> GetsFree(t, []) || (Freeing(t) && FreeRank(t.helper) < FreeRank(s.helper))
  {
    if a.CoreStep? {
      CoreLeavesFreeing(s);
    }
  }

  lemma CoreLeavesFreeing(s: State)
    requires Inv(s) && Freeing(s)
    ensures var t := CoreNext(s); GetsFree(t, []) || (Freeing(t) && t.helper == s.helper)
  {}

  /** The slot of a packet the host has taken is empty after three helper steps, not counting
      those during which Core holds the mutex, whatever happens in between. */
  lemma {:induction false} TakenPacketFreesSlot(s: State, actions: seq<Action>)
    requires Inv(s) && Freeing(s)
    ensures GetsFree(s, actions) || FreeSteps(s, actions) < FreeRank(s.helper)
    ensures FreeSteps(s, actions) >= 3 ==> GetsFree(s, actions)
    decreases |actions|
  {
    if actions != [] {
      var t := Step(s, actions[0]);
      FreeingGoesOn(s, actions[0]);
      if Freeing(t) {
        StepKeepsInv(s, actions[0]);
        TakenPacketFreesSlot(t, actions[1..]);
      }
    }
  }

  // --------------------------------------------------------------------- end to end

  /** A helper that wakes up or comes round in front of a full slot calls write five steps on. */
  lemma PacketIsOffered(s: State)
    requires s.status.Running? && !s.cancel && (s.helper.EnterLock? || s.helper.Woken?)
    requires s.mutex.Free? && s.slot.occupied
    ensures Leads(s, Repeat(HelperStep, 5), s.(helper := Sending(s.slot.length, [])))
  {
    var n := s.slot.length;
    var locked := s.(helper := TestSlot, mutex := Helper);
    var measured := s.(helper := Unlock(n), mutex := Helper);
    Thrice(Step, s, HelperStep, locked, locked.(helper := TakeLength), measured);
    Twice(Step, measured, HelperStep, s.(helper := EnterWrite(n)), s.(helper := Sending(n, [])));
    Again(Step, s, HelperStep, 3, measured, 2, s.(helper := Sending(n, [])));
  }

  lemma {:induction false} KernelReadsRest(s: State, m: nat)
    requires s.status.Running? && s.helper.Sending? && m == s.helper.n - |s.helper.got|
    requires s.helper.n <= |Bytes(s.slot)| && s.helper.got == Bytes(s.slot)[..|s.helper.got|]
    ensures var n := s.helper.n;
      Leads(s, Repeat(KernelReads, m), s.(helper := Sending(n, Bytes(s.slot)[..n])))
    decreases m
  {
    if m > 0 {
      var t := Step(s, KernelReads);
      assert t.helper.got == Bytes(s.slot)[..|s.helper.got| + 1];
      Once(Step, s, KernelReads, t);
      KernelReadsRest(t, m - 1);
      Again(Step, s, KernelReads, 1, t, m - 1, s.(helper := Sending(s.helper.n, Bytes(s.slot)[..s.helper.n])));
    }
  }

  /** The transfer is complete and the helper about to free the slot. */
  function Taken(s: State): State
    requires s.slot.length <= |Bytes(s.slot)|
  {
    s.(helper := Relock, hist := s.hist.(toHost := s.hist.toHost + [Bytes(s.slot)[..s.slot.length]]))
  }

  lemma OfferedPacketIsTaken(s: State)
    requires s.status.Running? && s.slot.length <= |Bytes(s.slot)|
    ensures Leads(s.(helper := Sending(s.slot.length, [])), Repeat(KernelReads, s.slot.length) + Repeat(HostAccepts, 1),
                  Taken(s))
  {
    var n := s.slot.length;
    var begun, read := s.(helper := Sending(n, [])), s.(helper := Sending(n, Bytes(s.slot)[..n]));
    KernelReadsRest(begun, n);
    Once(Step, read, HostAccepts, Taken(s));
    Then(Step, begun, Repeat(KernelReads, n), read, Repeat(HostAccepts, 1), Taken(s));
  }

  /** The slot is empty, the room is announced, and the helper locks for the next packet. */
  function Freed(s: State): State
    requires s.event.Some?
  {
    s.(helper := EnterLock, slot := s.slot.(length := 0, occupied := false),
       event := Some(s.event.value + 1), announced := false)
  }

  lemma RoomIsMade(s: State)
    requires s.status.Running? && !s.cancel && s.helper.Relock? && s.mutex.Free?
    requires s.event.Some? && s.event.value < EVENTFD_MAX
    ensures Leads(s, Repeat(HelperStep, 6), Freed(s))
  {
    var cleared := s.(helper := SignalConsumed, mutex := Helper, slot := s.slot.(length := 0, occupied := false),
                      announced := false);
    SlotIsFreed(s);
    RoomIsAnnounced(cleared);
    assert Freed(s) == cleared.(helper := EnterLock, mutex := Free, event := Some(s.event.value + 1));
    Again(Step, s, HelperStep, 3, cleared, 3, Freed(s));
  }

  lemma SlotIsFreed(s: State)
    requires s.status.Running? && s.helper.Relock? && s.mutex.Free?
    ensures Leads(s, Repeat(HelperStep, 3),
                  s.(helper := SignalConsumed, mutex := Helper, slot := s.slot.(length := 0, occupied := false),
                     announced := false))
  {
    var locked := s.(helper := ClearLength, mutex := Helper);
    var shortened := locked.(helper := ClearOccupied, slot := s.slot.(length := 0));
    Thrice(Step, s, HelperStep, locked, shortened,
           shortened.(helper := SignalConsumed, slot := s.slot.(length := 0, occupied := false), announced := false));
  }

  lemma RoomIsAnnounced(s: State)
    requires s.status.Running? && !s.cancel && s.helper.SignalConsumed?
    requires s.event.Some? && s.event.value < EVENTFD_MAX
    ensures Leads(s, Repeat(HelperStep, 3), s.(helper := EnterLock, mutex := Free, event := Some(s.event.value + 1)))
  {
    var signalled := s.(helper := UnlockCleared);
    Thrice(Step, s, HelperStep, signalled, s.(helper := Notify, mutex := Free),
           s.(helper := EnterLock, mutex := Free, event := Some(s.event.value + 1)));
  }

  /** Core hears of a readable eventfd and drains it. */
  lemma EventIsDrained(s: State)
    requires s.status.Running? && s.core.Idle? && s.event.Some? && s.event.value > 0
    ensures Leads(s, [Poll] + Repeat(CoreStep, 2), s.(event := Some(0), announced := s.announced || s.bound))
  {
    var heard := s.(event := Some(0), announced := s.announced || s.bound);
    Twice(Step, s.(core := Polled), CoreStep, s.(core := Drained, event := Some(0)), heard);
    First(Step, s, Poll, s.(core := Polled), Repeat(CoreStep, 2), heard);
  }

  /** What happens to a packet of `n` bytes from the helper's waking to Core's drain. */
  function Journey(n: nat): seq<Action> {
    ((Repeat(HelperStep, 5) + (Repeat(KernelReads, n) + Repeat(HostAccepts, 1)))
     + Repeat(HelperStep, 6)) + ([Poll] + Repeat(CoreStep, 2))
  }

  lemma JourneyLeads(s: State)
    requires s.status.Running? && !s.cancel && s.core.Idle? && s.mutex.Free? && s.slot.occupied
    requires s.slot.length <= |Bytes(s.slot)|
    requires (s.helper.EnterLock? || s.helper.Woken?) && s.event.Some? && s.event.value < EVENTFD_MAX
    ensures Leads(s, Journey(s.slot.length), Freed(Taken(s)).(event := Some(0), announced := s.bound))
  {
    var n := s.slot.length;
    var offered, taken := s.(helper := Sending(n, [])), Taken(s);
    var offer, take := Repeat(HelperStep, 5), Repeat(KernelReads, n) + Repeat(HostAccepts, 1);
    PacketIsOffered(s);
    OfferedPacketIsTaken(s);
    Then(Step, s, offer, offered, take, taken);
    RoomIsMade(taken);
    Then(Step, s, offer + take, taken, Repeat(HelperStep, 6), Freed(taken));
    EventIsDrained(Freed(taken));
    Then(Step, s, offer + take + Repeat(HelperStep, 6), Freed(taken), [Poll] + Repeat(CoreStep, 2),
         Freed(taken).(event := Some(0), announced := s.bound));
  }

  /** The way of an accepted packet: the helper passes it to the kernel, the host takes it, the
      helper empties the slot and announces the room, and Core drains the announcement. The
      host has then got exactly the packet. */
  lemma AcceptedPacketIsTransferred(s: State)
    requires Inv(s) && s.status.Running? && s.core.Idle? && s.mutex.Free? && s.slot.occupied
    requires (s.helper.EnterLock? || s.helper.Woken?) && s.event.Some? && s.event.value < EVENTFD_MAX
    ensures var t := Run(s, Journey(s.slot.length));
      && t.hist == s.hist.(toHost := s.hist.toHost + Outstanding(s.slot, s.helper))
      && !t.slot.occupied && t.event == Some(0) && (s.bound ==> t.announced)
      && t.status.Running? && t.helper.EnterLock? && t.core.Idle? && t.mutex.Free?
  {
    JourneyLeads(s);
    LeadsIsRun(s, Journey(s.slot.length), Freed(Taken(s)).(event := Some(0), announced := s.bound));
  }

  // ------------------------------------------------------------ iface_write_ready

  /** `iface_write_ready` disturbs nothing, and its answer is whether the slot was empty. */
  lemma ReadyAnswers(s: State)
    requires Inv(s) && s.status.Running? && s.core.Idle? && s.mutex.Free?
    ensures Run(s, [CallReady] + Repeat(CoreStep, 2)) == s.(core := PeekUnlock(!s.slot.occupied), mutex := Core)
    ensures Run(s, [CallReady] + Repeat(CoreStep, 3)) == s
  {
    var called, locked := s.(core := PeekLock), s.(core := PeekTest, mutex := Core);
    var answered := s.(core := PeekUnlock(!s.slot.occupied), mutex := Core);
    Twice(Step, called, CoreStep, locked, answered);
    First(Step, s, CallReady, called, Repeat(CoreStep, 2), answered);
    LeadsIsRun(s, [CallReady] + Repeat(CoreStep, 2), answered);
    Thrice(Step, called, CoreStep, locked, answered, s);
    First(Step, s, CallReady, called, Repeat(CoreStep, 3), s);
    LeadsIsRun(s, [CallReady] + Repeat(CoreStep, 3), s);
  }

  /** Core is not inside a write. */
  predicate LeavesRoom(c: CorePc) {
    !c.WriteLock? && !c.WriteTest? && !c.WriteCopy? && !c.WriteSetLength? && !c.WriteSetOccupied?
  }

  lemma EmptySlotStays(s: State, a: Action)
    requires Inv(s) && !s.slot.occupied && LeavesRoom(s.core) && !a.CallWrite?
    ensures !Step(s, a).slot.occupied && LeavesRoom(Step(s, a).core)
  {
    if a.HelperStep? {
      HelperLeavesCore(s);
    } else if a.CoreStep? {
      CoreLeavesEmpty(s);
    }
  }

  lemma CoreLeavesEmpty(s: State)
    requires Inv(s) && !s.slot.occupied && LeavesRoom(s.core)
    ensures !CoreNext(s).slot.occupied && LeavesRoom(CoreNext(s).core)
  {}

  /** A positive answer does not go stale: until Core writes, the slot stays empty, whatever
      happens meanwhile. */
  lemma {:induction false} RoomStays(s: State, actions: seq<Action>)
    requires Inv(s) && LeavesRoom(s.core) && (s.core == PeekUnlock(true) || !s.slot.occupied)
    requires forall i :: 0 <= i < |actions| ==> !actions[i].CallWrite?
    ensures !Run(s, actions).slot.occupied
    decreases |actions|
  {
    if actions != [] {
      EmptySlotStays(s, actions[0]);
      StepKeepsInv(s, actions[0]);
      RoomStays(Step(s, actions[0]), actions[1..]);
    }
  }

  // -------------------------------------------------------------------- the kernel

  /** A write that a signal interrupts is taken up again from the first byte, and nothing else
      has happened. */
  lemma InterruptedWriteIsRetried(s: State)
    requires s.status.Running? && s.helper.Sending? && !s.cancel
    ensures Run(s, [Interrupted] + Repeat(HelperStep, 1)) == s.(helper := Sending(s.helper.n, []))
  {
    var n := s.helper.n;
    Once(Step, s.(helper := EnterWrite(n)), HelperStep, s.(helper := Sending(n, [])));
    First(Step, s, Interrupted, s.(helper := EnterWrite(n)), Repeat(HelperStep, 1), s.(helper := Sending(n, [])));
    LeadsIsRun(s, [Interrupted] + Repeat(HelperStep, 1), s.(helper := Sending(n, [])));
  }

  /** A helper that wakes up for no reason in front of an empty slot goes back to sleep. */
  lemma SpuriousWakeIsHarmless(s: State)
    requires s.status.Running? && s.helper.Asleep? && !s.slot.occupied && s.mutex.Free? && !s.cancel
    ensures Run(s, [SpuriousWake] + Repeat(HelperStep, 2)) == s
  {
    Twice(Step, s.(helper := Woken), HelperStep, s.(helper := TestSlot, mutex := Helper), s);
    First(Step, s, SpuriousWake, s.(helper := Woken), Repeat(HelperStep, 2), s);
    LeadsIsRun(s, [SpuriousWake] + Repeat(HelperStep, 2), s);
  }

  lemma FinishedStays(s: State, a: Action)
    requires Inv(s) && s.helper.Finished? && !Stopping(s.core) && !a.Stop?
    ensures Step(s, a).helper.Finished? && !Stopping(Step(s, a).core)
  {
    if a.CoreStep? && s.status.Running? && CoreNext(s).status.Running? {
      CoreStaysAtWork(s);
      CoreLeavesFinished(s);
    }
  }

  lemma CoreLeavesFinished(s: State)
    requires s.helper.Finished? && !Stopping(s.core)
    ensures CoreNext(s).helper.Finished? && !Stopping(CoreNext(s).core)
  {}

  /** When the generation ends under a helper in write, the helper ends with it and stays ended
      until the endpoint is stopped. */
  lemma {:induction false} EndedHelperStaysEnded(s: State, actions: seq<Action>)
    requires Inv(s) && s.status.Running? && !Stopping(s.core)
    requires forall i :: 0 <= i < |actions| ==> !actions[i].Stop?
    ensures s.helper.Sending? ==> Run(Step(s, HostEnd), actions).helper.Finished?
    ensures s.helper.Finished? ==> Run(s, actions).helper.Finished?
    decreases |actions|, if s.helper.Sending? then 1 else 0
  {
    if s.helper.Sending? {
      StepKeepsInv(s, HostEnd);
      EndedHelperStaysEnded(Step(s, HostEnd), actions);
    } else if s.helper.Finished? && actions != [] {
      StepKeepsInv(s, actions[0]);
      FinishedStays(s, actions[0]);
      if Step(s, actions[0]).status.Running? {
        EndedHelperStaysEnded(Step(s, actions[0]), actions[1..]);
      } else {
        DeadStaysDead(Step(s, actions[0]), actions[1..]);
      }
    }
  }

  /** After a usb_init over a running helper, the helper's next notification ends the process. */
  lemma ResetKillsNotifier(s: State)
    requires s.status.Running? && s.core.Idle? && s.helper.Notify? && !s.cancel
    ensures Run(s, [Reset] + Repeat(HelperStep, 1)).status.Died?
  {
    var reset := s.(event := None);
    var dead := Step(reset, HelperStep);
    Once(Step, reset, HelperStep, dead);
    First(Step, s, Reset, reset, Repeat(HelperStep, 1), dead);
    LeadsIsRun(s, [Reset] + Repeat(HelperStep, 1), dead);
  }

  // --------------------------------------------------------------------- stopping

  /** A packet whose transfer the host has completed is not lost by a cancellation that comes
      before write returns: it counts as sent, and the join drops nothing. */
  lemma CompletedTransferIsNotLost(s: State)
    requires Inv(s) && s.status.Running? && s.cancel && s.helper.Sending? && |s.helper.got| == s.helper.n
    ensures var t := Run(s, [CancelSent] + Repeat(CoreStep, 1));
      && t.helper.Absent? && t.hist.lost == []
      && t.hist.toHost == s.hist.toHost + Outstanding(s.slot, s.helper) == s.hist.accepted
  {
    var sent := Step(s, CancelSent);
    StepKeepsInv(s, CancelSent);
    var t := Step(sent, CoreStep);
    Once(Step, sent, CoreStep, t);
    First(Step, s, CancelSent, sent, Repeat(CoreStep, 1), t);
    LeadsIsRun(s, [CancelSent] + Repeat(CoreStep, 1), t);
    assert s.helper.got == Bytes(s.slot)[..s.slot.length];
    assert Outstanding(s.slot, s.helper) == [s.helper.got] && s.hist.lost == [];
    assert Outstanding(sent.slot, sent.helper) == [];
  }

  /** These steps after a stop leave nothing of the activation: no helper, no buffer, no
      eventfd, no packet, and a free mutex. */
  ghost predicate Stopped(s: State, actions: seq<Action>) {
    var t := Run(s, [Stop] + actions);
    && |actions| <= Rank(s.helper, s.max) + 5
    && t.status.Running? && t.core == (if s.core.Polled? then Stale else Idle)
    && t.helper.Absent? && t.slot == Slot(None, 0, false) && t.event.None? && t.mutex.Free? && !t.cancel
  }

  lemma TearsDown(s: State)
    requires s.status.Running? && s.core.StopCloseEvent?
    ensures var t := Run(s, Repeat(CoreStep, 3));
      && t.status == s.status && t.core == (if s.core.late then Stale else Idle)
      && t.helper == s.helper && t.mutex == s.mutex && t.cancel == s.cancel
      && t.slot == Slot(None, 0, false) && t.event.None?
  {
    var late := s.core.late;
    var closed := s.(core := StopFree(late), event := None);
    var freed := TearDown(closed);
    var done := TearDown(freed);
    Thrice(Step, s, CoreStep, closed, freed, done);
    LeadsIsRun(s, Repeat(CoreStep, 3), done);
  }

  lemma JoinedThenDown(s: State, actions: seq<Action>)
    requires Inv(s) && s.core.StopJoin? && s.status.Running? && Joined(s, actions)
    ensures var t := Run(s, actions + Repeat(CoreStep, 3));
      && t.status.Running? && t.core == (if s.core.late then Stale else Idle)
      && t.helper.Absent? && t.slot == Slot(None, 0, false) && t.event.None? && t.mutex.Free? && !t.cancel
  {
    var joined := Run(s, actions);
    RunKeepsInv(s, actions);
    TearsDown(joined);
    LeadsIsRun(s, actions, joined);
    LeadsIsRun(joined, Repeat(CoreStep, 3), Run(joined, Repeat(CoreStep, 3)));
    Then(Step, s, actions, joined, Repeat(CoreStep, 3), Run(joined, Repeat(CoreStep, 3)));
    LeadsIsRun(s, actions + Repeat(CoreStep, 3), Run(joined, Repeat(CoreStep, 3)));
  }

  /** A stop comes to its end from every state in which Core can begin it. */
  lemma StopCompletes(s: State)
    requires Inv(s) && s.status.Running? && (s.core.Idle? || s.core.Polled?)
    ensures exists actions :: Stopped(s, actions)
  {
    var stopping := Step(s, Stop);
    StepKeepsInv(s, Stop);
    if s.helper.Absent? {
      TearsDown(stopping);
      RunFirst(s, Stop, Repeat(CoreStep, 3));
      assert Stopped(s, Repeat(CoreStep, 3));
    } else {
      var joining := Step(stopping, CoreStep);
      StepKeepsInv(stopping, CoreStep);
      JoinReturns(joining);
      var actions :| Joined(joining, actions);
      JoinedThenDown(joining, actions);
      var rest := actions + Repeat(CoreStep, 3);
      RunFirst(stopping, CoreStep, rest);
      RunFirst(s, Stop, [CoreStep] + rest);
      assert Stopped(s, [CoreStep] + rest);
    }
  }
}
