/** What the Safe 3 OUT endpoint gets done: a packet the host sends reaches the slot, and an
    `iface_read` that finds the slot full delivers it. */
module Safe3OutRuns {
  import opened Common
  import opened Safe3Out
  import opened Scripts

  /** These actions lead from `s` to `t`. */
  ghost predicate Leads(s: State, actions: seq<Action>, t: State) {
    Scripts.Leads(Step, s, actions, t)
  }

  lemma {:induction false} LeadsIsRun(s: State, actions: seq<Action>, t: State)
    ensures Leads(s, actions, t) <==> Run(s, actions) == t
    decreases |actions|
  {
    if actions != [] {
      LeadsIsRun(Step(s, actions[0]), actions[1..], t);
    }
  }

  // ---------------------------------------------------------------- iface_read alone

  /** The packet in a full slot. */
  function Published(slot: Slot): Packet
    requires slot.length <= |Bytes(slot)|
  {
    Bytes(slot)[..slot.length]
  }

  lemma {:induction false} ReadCopies(s: State, n: nat)
    requires s.status.Running? && s.core.ReadCopy? && n == Min(s.slot.length, s.core.cap) - |s.core.got|
    requires s.slot.length <= |Bytes(s.slot)| && s.core.got == Bytes(s.slot)[..|s.core.got|]
    ensures var cap := s.core.cap;
      Leads(s, Repeat(CoreStep, n), s.(core := ReadCopy(cap, Cut(Published(s.slot), cap))))
    decreases n
  {
    var cap, got := s.core.cap, s.core.got;
    if n == 0 {
      assert got == Cut(Published(s.slot), cap);
    } else {
      var t := Step(s, CoreStep);
      assert t.core.got == Bytes(s.slot)[..|got| + 1];
      Once(Step, s, CoreStep, t);
      ReadCopies(t, n - 1);
      Again(Step, s, CoreStep, 1, t, n - 1, s.(core := ReadCopy(cap, Cut(Published(s.slot), cap))));
    }
  }

  /** What is left behind when a packet has been taken. */
  function Delivered(s: State, cap: nat): State
    requires s.slot.length <= |Bytes(s.slot)|
  {
    s.(core := Idle, mutex := Free,
       slot := s.slot.(occupied := false, length := 0),
       hist := s.hist.(taken := s.hist.taken + [Delivery(Cut(Published(s.slot), cap), cap)]),
       helper := if s.helper.Asleep? then Woken(s.helper.p) else s.helper)
  }

  lemma CopyIsConsumed(s: State, cap: nat, got: Packet)
    requires s.status.Running? && s.core == ReadCopy(cap, got) && |got| >= Min(s.slot.length, cap)
    ensures Leads(s, Repeat(CoreStep, 2),
                  s.(core := ReadClearLength, slot := s.slot.(occupied := false),
                     hist := s.hist.(taken := s.hist.taken + [Delivery(got, cap)])))
  {
    Twice(Step, s, CoreStep, s.(core := ReadClear(cap, got)),
          s.(core := ReadClearLength, slot := s.slot.(occupied := false),
             hist := s.hist.(taken := s.hist.taken + [Delivery(got, cap)])));
  }

  lemma SlotIsReleased(s: State)
    requires s.status.Running? && s.core.ReadClearLength?
    ensures Leads(s, Repeat(CoreStep, 3),
                  s.(core := Idle, mutex := Free, slot := s.slot.(length := 0),
                     helper := if s.helper.Asleep? then Woken(s.helper.p) else s.helper))
  {
    var emptied := s.(core := ReadSignal, slot := s.slot.(length := 0));
    var signalled := emptied.(core := ReadUnlock, helper := if s.helper.Asleep? then Woken(s.helper.p) else s.helper);
    Thrice(Step, s, CoreStep, emptied, signalled, signalled.(core := Idle, mutex := Free));
  }

  lemma ReadEnds(s: State, cap: nat)
    requires s.status.Running? && s.slot.length <= |Bytes(s.slot)|
    requires s.core == ReadCopy(cap, Cut(Published(s.slot), cap))
    ensures Leads(s, Repeat(CoreStep, 5), Delivered(s, cap))
  {
    var consumed := s.(core := ReadClearLength, slot := s.slot.(occupied := false),
                       hist := s.hist.(taken := s.hist.taken + [Delivery(s.core.got, cap)]));
    CopyIsConsumed(s, cap, s.core.got);
    SlotIsReleased(consumed);
    Again(Step, s, CoreStep, 2, consumed, 3, Delivered(s, cap));
  }

  /** How many steps an undisturbed `iface_read` takes. */
  function ReadSteps(s: State, cap: nat): nat {
    if s.slot.occupied then Min(s.slot.length, cap) + 7 else 3
  }

  lemma ReadBegins(s: State, cap: nat)
    requires s.status.Running? && s.core == ReadLock(cap) && s.mutex.Free? && s.slot.occupied
    ensures Leads(s, Repeat(CoreStep, 2), s.(core := ReadCopy(cap, []), mutex := Core))
  {
    Twice(Step, s, CoreStep, s.(core := ReadTest(cap), mutex := Core), s.(core := ReadCopy(cap, []), mutex := Core));
  }

  lemma CopyIsDelivered(s: State, cap: nat)
    requires s.status.Running? && s.core == ReadCopy(cap, []) && s.slot.length <= |Bytes(s.slot)|
    ensures Leads(s, Repeat(CoreStep, Min(s.slot.length, cap) + 5), Delivered(s, cap))
  {
    var n := Min(s.slot.length, cap);
    var copied := s.(core := ReadCopy(cap, Cut(Published(s.slot), cap)));
    ReadCopies(s, n);
    ReadEnds(copied, cap);
    assert Delivered(copied, cap) == Delivered(s, cap);
    Again(Step, s, CoreStep, n, copied, 5, Delivered(s, cap));
  }

  lemma ReadTakesPacket(s: State, cap: nat)
    requires s.status.Running? && s.core == ReadLock(cap) && s.mutex.Free? && s.slot.occupied
    requires s.slot.length <= |Bytes(s.slot)|
    ensures Leads(s, Repeat(CoreStep, Min(s.slot.length, cap) + 7), Delivered(s, cap))
  {
    var copying := s.(core := ReadCopy(cap, []), mutex := Core);
    ReadBegins(s, cap);
    CopyIsDelivered(copying, cap);
    assert Delivered(copying, cap) == Delivered(s, cap);
    Again(Step, s, CoreStep, 2, copying, Min(s.slot.length, cap) + 5, Delivered(s, cap));
  }

  lemma ReadFindsNothing(s: State, cap: nat)
    requires s.status.Running? && s.core == ReadLock(cap) && s.mutex.Free? && !s.slot.occupied
    ensures Leads(s, Repeat(CoreStep, 3), s.(core := Idle))
  {
    Thrice(Step, s, CoreStep, s.(core := ReadTest(cap), mutex := Core), s.(core := ReadUnlock, mutex := Core),
           s.(core := Idle));
  }

  function ReadResult(s: State, cap: nat): State
    requires s.slot.occupied ==> s.slot.length <= |Bytes(s.slot)|
  {
    if s.slot.occupied then Delivered(s, cap) else s
  }

  lemma ReadLeads(s: State, cap: nat)
    requires s.status.Running? && s.core.Idle? && s.mutex.Free?
    requires s.slot.occupied ==> s.slot.length <= |Bytes(s.slot)|
    ensures Leads(s, [CallRead(cap)] + Repeat(CoreStep, ReadSteps(s, cap)), ReadResult(s, cap))
  {
    var called := s.(core := ReadLock(cap));
    if s.slot.occupied {
      ReadTakesPacket(called, cap);
    } else {
      ReadFindsNothing(called, cap);
    }
    First(Step, s, CallRead(cap), called, Repeat(CoreStep, ReadSteps(s, cap)), ReadResult(s, cap));
  }

  /** An `iface_read` that nobody disturbs returns, with the mutex free. From a full slot it
      has taken the head of the queue, cut to the caller's size, and woken a helper that waited
      for the room; from an empty one it has changed nothing. */
  lemma ReadDelivers(s: State, cap: nat)
    requires Inv(s) && s.status.Running? && s.core.Idle? && s.mutex.Free?
    ensures var t := Run(s, [CallRead(cap)] + Repeat(CoreStep, ReadSteps(s, cap)));
      && t.status.Running? && t.core.Idle? && t.mutex.Free?
      && (s.slot.occupied ==> Get(Abs(s), Abs(t), cap) && !t.slot.occupied && t.slot.length == 0)
      && (s.slot.occupied ==> t.helper == if s.helper.Asleep? then Woken(s.helper.p) else s.helper)
      && (!s.slot.occupied ==> t == s)
  {
    ReadLeads(s, cap);
    LeadsIsRun(s, [CallRead(cap)] + Repeat(CoreStep, ReadSteps(s, cap)), ReadResult(s, cap));
    if s.slot.occupied {
      DeliveredIsGet(s, cap);
    }
  }

  lemma DeliveredIsGet(s: State, cap: nat)
    requires Inv(s) && s.slot.occupied && s.core.Idle?
    ensures Get(Abs(s), Abs(Delivered(s, cap)), cap)
  {
    assert Abs(s).queue[0] == Published(s.slot);
    assert Abs(Delivered(s, cap)).queue == Abs(s).queue[1..];
  }

  // ------------------------------------------------------- iface_read among others

  /** Core is inside the `iface_read` of `cap` bytes and has not taken a packet yet. */
  predicate Reading(c: CorePc, cap: nat) {
    (c.ReadLock? || c.ReadTest? || c.ReadCopy? || c.ReadClear?) && c.cap == cap
  }

  /** The action at `k` takes the packet `p` out of the queue. */
  ghost predicate GetsAt(s: State, actions: seq<Action>, k: nat, p: Packet, cap: nat) {
    && k < |actions|
    && var f := Run(s, actions[..k]);
       && Reading(f.core, cap)
       && Get(Abs(f), Abs(Step(f, actions[k])), cap)
       && Abs(f).queue[0] == p
  }

  /** Before the action at `k` Core looks at the slot, with the mutex, and it is empty. */
  predicate FindsEmptyAt(s: State, actions: seq<Action>, k: nat, cap: nat) {
    && k < |actions|
    && var f := Run(s, actions[..k]);
       f.core == ReadTest(cap) && f.mutex.Core? && !f.slot.occupied
  }

  lemma RunPrefix(s: State, actions: seq<Action>, k: nat)
    requires 0 < k <= |actions|
    ensures Run(s, actions[..k]) == Run(Step(s, actions[0]), actions[1..][..k - 1])
  {
    assert actions[..k][1..] == actions[1..][..k - 1];
  }

  lemma CoreGoesOnReading(s: State, cap: nat)
    requires Inv(s) && s.status.Running? && Reading(s.core, cap)
    ensures var t := CoreNext(s);
      || (Reading(t.core, cap) && t.slot == s.slot && (t.core.ReadLock? || t.core.ReadTest? || t.slot.occupied))
      || (s.core.ReadClear? && Get(Abs(s), Abs(t), cap))
      || (s.core.ReadTest? && !s.slot.occupied)
  {
    if s.core.ReadClear? {
      ClearRefinesGet(s);
    } else {
      assert CoreNext(s) == TakePacket(s);
    }
  }

  lemma OthersLetItRead(s: State, a: Action, cap: nat)
    requires Inv(s) && s.status.Running? && Reading(s.core, cap) && !a.CoreStep?
    ensures Step(s, a).core == s.core
    ensures !s.core.ReadLock? ==> Step(s, a).slot == s.slot
  {
    if a.HelperStep? {
      HelperLeavesCore(s);
      if !s.core.ReadLock? {
        HelperLeavesSlot(s);
      }
    }
  }

  lemma HelperLeavesSlot(s: State)
    requires Inv(s) && s.mutex.Core?
    ensures HelperNext(s).slot == s.slot
  {}

  /** An `iface_read` that finds `occupied` set under the lock cannot return without having
      taken the packet that was there, whatever everybody else does meanwhile. */
  lemma {:induction false} FoundPacketIsDelivered(s: State, actions: seq<Action>, cap: nat)
    requires Inv(s) && s.status.Running? && Reading(s.core, cap) && !s.core.ReadLock? && s.slot.occupied
    ensures var t := Run(s, actions);
      t.status.Running? ==> Reading(t.core, cap) || exists k: nat :: GetsAt(s, actions, k, Published(s.slot), cap)
    decreases |actions|
  {
    if actions != [] {
      var a := actions[0];
      var t := Step(s, a);
      StepKeepsInv(s, a);
      if a.CoreStep? {
        CoreGoesOnReading(s, cap);
      } else {
        OthersLetItRead(s, a, cap);
      }
      if Reading(t.core, cap) {
        FoundInRest(s, actions, cap);
      } else {
        assert Run(s, actions[..0]) == s;
        assert GetsAt(s, actions, 0, Published(s.slot), cap);
      }
    }
  }

  lemma {:induction false} FoundInRest(s: State, actions: seq<Action>, cap: nat)
    requires Inv(s) && s.status.Running? && s.slot.occupied && actions != []
    requires var t := Step(s, actions[0]);
      Inv(t) && Reading(t.core, cap) && !t.core.ReadLock? && t.slot == s.slot
    ensures var t := Run(s, actions);
      t.status.Running? ==> Reading(t.core, cap) || exists k: nat :: GetsAt(s, actions, k, Published(s.slot), cap)
    decreases |actions|, 0
  {
    var t, rest := Step(s, actions[0]), actions[1..];
    if t.status.Running? {
      FoundPacketIsDelivered(t, rest, cap);
      if k: nat :| GetsAt(t, rest, k, Published(s.slot), cap) {
        RunPrefix(s, actions, k + 1);
        assert GetsAt(s, actions, k + 1, Published(s.slot), cap);
      }
    } else {
      DeadStaysDead(t, rest);
    }
  }

  /** Why an `iface_read` may be over: it took a packet, or it found none. */
  ghost predicate HasReason(s: State, actions: seq<Action>, cap: nat) {
    || (exists k: nat, p: Packet :: GetsAt(s, actions, k, p, cap))
    || (exists k: nat :: FindsEmptyAt(s, actions, k, cap))
  }

  /** Every `iface_read` that returns has taken a packet, or has found the slot empty while it
      held the mutex, in every interleaving. */
  lemma {:induction false} ReadHasReason(s: State, actions: seq<Action>, cap: nat)
    requires Inv(s) && s.status.Running? && (s.core == ReadLock(cap) || s.core == ReadTest(cap))
    ensures var t := Run(s, actions); t.status.Running? ==> Reading(t.core, cap) || HasReason(s, actions, cap)
    decreases |actions|
  {
    if actions != [] {
      if s.core.ReadLock? {
        ReasonInRest(s, actions, cap);
      } else if s.slot.occupied {
        FoundPacketIsDelivered(s, actions, cap);
      } else {
        assert Run(s, actions[..0]) == s;
        assert FindsEmptyAt(s, actions, 0, cap);
      }
    }
  }

  lemma {:induction false} ReasonInRest(s: State, actions: seq<Action>, cap: nat)
    requires Inv(s) && s.status.Running? && s.core == ReadLock(cap) && actions != []
    ensures var t := Run(s, actions); t.status.Running? ==> Reading(t.core, cap) || HasReason(s, actions, cap)
    decreases |actions|, 0
  {
    var t, rest := Step(s, actions[0]), actions[1..];
    StepKeepsInv(s, actions[0]);
    LockOrWait(s, actions[0], cap);
    if t.status.Running? {
      ReadHasReason(t, rest, cap);
      if k: nat, p: Packet :| GetsAt(t, rest, k, p, cap) {
        RunPrefix(s, actions, k + 1);
        assert GetsAt(s, actions, k + 1, p, cap);
      } else if k: nat :| FindsEmptyAt(t, rest, k, cap) {
        RunPrefix(s, actions, k + 1);
        assert FindsEmptyAt(s, actions, k + 1, cap);
      }
    } else {
      DeadStaysDead(t, rest);
    }
  }

  lemma LockOrWait(s: State, a: Action, cap: nat)
    requires Inv(s) && s.status.Running? && s.core == ReadLock(cap)
    ensures Step(s, a).core == ReadLock(cap) || Step(s, a).core == ReadTest(cap)
  {
    if !a.CoreStep? {
      OthersLetItRead(s, a, cap);
    }
  }

  // ------------------------------------------------------------------- the helper

  /** The helper has a packet in its buffer and the slot is empty. */
  predicate Pending(s: State) {
    s.status.Running? && !s.cancel && Carries(s.helper) && !s.slot.occupied
  }

  /** At some point of this run the slot holds `p`, unless a stop or the end of the process
      comes first. */
  predicate ReachesSlot(s: State, actions: seq<Action>, p: Packet)
    decreases |actions|
  {
    || (s.slot.occupied && s.slot.length <= |Bytes(s.slot)| && Published(s.slot) == p)
    || !s.status.Running? || s.cancel
    || (actions != [] && ReachesSlot(Step(s, actions[0]), actions[1..], p))
  }

  /** How many steps the helper takes in this run while Core does not hold the mutex. */
  function FreeSteps(s: State, actions: seq<Action>): nat
    decreases |actions|
  {
    if actions == [] then 0
    else (if actions[0].HelperStep? && !s.mutex.Core? then 1 else 0) + FreeSteps(Step(s, actions[0]), actions[1..])
  }

  /** How far a helper in front of an empty slot is from having published its packet. */
  function PublishRank(h: HelperPc): nat
    requires Carries(h)
  {
    if h.SetOccupied? then 1
    else if h.SetLength? then 2
    else if h.Copying? then (if h.k <= |h.p| then 3 + |h.p| - h.k else 3)
    else if h.TestSlot? then 4 + |h.p|
    else 5 + |h.p|
  }

  lemma PendingGoesOn(s: State, a: Action)
    requires Inv(s) && Pending(s)
    ensures var t := Step(s, a);
      || ReachesSlot(t, [], s.helper.p)
      || (Pending(t) && t.helper.p == s.helper.p && PublishRank(t.helper) <= PublishRank(s.helper))
    ensures var t := Step(s, a);
      a.HelperStep? && !s.mutex.Core? ==>
        ReachesSlot(t, [], s.helper.p) || (Pending(t) && PublishRank(t.helper) < PublishRank(s.helper))
  {
    if a.HelperStep? {
      HelperNearsSlot(s);
    } else if a.CoreStep? {
      CoreLeavesPending(s);
    }
  }

  lemma HelperNearsSlot(s: State)
    requires Inv(s) && Pending(s)
    ensures var t := HelperNext(s);
      || ReachesSlot(t, [], s.helper.p)
      || (Pending(t) && t.helper.p == s.helper.p
          && (if s.mutex.Core? then t == s else PublishRank(t.helper) < PublishRank(s.helper)))
  {
    if s.helper.Copying? {
      assert HelperNext(s) == CopyIn(s);
    } else if s.helper.SetLength? || s.helper.SetOccupied? {
      assert HelperNext(s) == Publish(s);
    } else if !s.helper.Asleep? {
      assert HelperNext(s) == AwaitSlot(s);
    }
  }

  lemma CoreLeavesPending(s: State)
    requires Inv(s) && Pending(s)
    ensures var t := CoreNext(s);
      || !t.status.Running? || t.cancel
      || (Pending(t) && t.helper.p == s.helper.p && PublishRank(t.helper) <= PublishRank(s.helper))
  {}

  /** A packet that was read from the host while the slot is empty is in the slot after as
      many helper steps as it has bytes and five more, not counting those during which Core
      holds the mutex, whatever happens in between. */
  lemma {:induction false} PacketReachesSlot(s: State, actions: seq<Action>)
    requires Inv(s) && Pending(s)
    ensures ReachesSlot(s, actions, s.helper.p) || FreeSteps(s, actions) < PublishRank(s.helper)
    ensures FreeSteps(s, actions) >= |s.helper.p| + 5 ==> ReachesSlot(s, actions, s.helper.p)
    decreases |actions|
  {
    if actions != [] {
      var t := Step(s, actions[0]);
      PendingGoesOn(s, actions[0]);
      if Pending(t) {
        StepKeepsInv(s, actions[0]);
        PacketReachesSlot(t, actions[1..]);
      }
    }
  }

  // --------------------------------------------------------------------- end to end

  /** The memcpy of the helper is over. */
  function Copied(s: State): State
    requires s.helper.Copying? && s.slot.buffer.Some? && |s.helper.p| <= |s.slot.buffer.value|
  {
    var p := s.helper.p;
    s.(helper := Copying(p, |p|), slot := s.slot.(buffer := Some(p + s.slot.buffer.value[|p|..])))
  }

  lemma {:induction false} HelperCopies(s: State, n: nat)
    requires s.status.Running? && s.helper.Copying? && n == |s.helper.p| - s.helper.k && s.slot.buffer.Some?
    requires var p, b := s.helper.p, s.slot.buffer.value; |p| <= |b| && b[..s.helper.k] == p[..s.helper.k]
    ensures Leads(s, Repeat(HelperStep, n), Copied(s))
    decreases n
  {
    var p, b, k := s.helper.p, s.slot.buffer.value, s.helper.k;
    if n == 0 {
      assert p + b[|p|..] == b[..|p|] + b[|p|..] == b;
    } else {
      CopyOneMore(b, p, k);
      assert b[k := p[k]][|p|..] == b[|p|..];
      var t := Step(s, HelperStep);
      Once(Step, s, HelperStep, t);
      HelperCopies(t, n - 1);
      Again(Step, s, HelperStep, 1, t, n - 1, Copied(s));
    }
  }

  /** The helper is back in read, and the `length` bytes in the slot are announced. */
  function Offered(s: State, length: nat): State
    requires s.event.Some?
  {
    s.(helper := InRead, mutex := Free, slot := s.slot.(length := length, occupied := true),
       event := Some(s.event.value + 1), announced := false)
  }

  lemma PacketIsPublished(s: State)
    requires s.status.Running? && s.helper.Copying? && s.helper.k == |s.helper.p| < 0x1_0000
    ensures Leads(s, Repeat(HelperStep, 3),
                  s.(helper := Unlocking, slot := s.slot.(length := |s.helper.p|, occupied := true),
                     announced := false))
  {
    var p := s.helper.p;
    var measured := s.(helper := SetOccupied(p), slot := s.slot.(length := |p|));
    Thrice(Step, s, HelperStep, s.(helper := SetLength(p)), measured,
           measured.(helper := Unlocking, slot := measured.slot.(occupied := true), announced := false));
  }

  lemma PacketIsAnnounced(s: State)
    requires s.status.Running? && !s.cancel && s.helper.Unlocking? && s.event.Some? && s.event.value < EVENTFD_MAX
    ensures Leads(s, Repeat(HelperStep, 3), s.(helper := InRead, mutex := Free, event := Some(s.event.value + 1)))
  {
    var reading := s.(helper := EnterRead, mutex := Free, event := Some(s.event.value + 1));
    Thrice(Step, s, HelperStep, s.(helper := Notify, mutex := Free), reading, reading.(helper := InRead));
  }

  lemma CopyIsOffered(s: State)
    requires s.status.Running? && !s.cancel && s.helper.Copying? && s.helper.k == |s.helper.p| < 0x1_0000
    requires s.event.Some? && s.event.value < EVENTFD_MAX
    ensures Leads(s, Repeat(HelperStep, 6), Offered(s, |s.helper.p|))
  {
    var n := |s.helper.p|;
    var full := s.(helper := Unlocking, slot := s.slot.(length := n, occupied := true), announced := false);
    PacketIsPublished(s);
    PacketIsAnnounced(full);
    Again(Step, s, HelperStep, 3, full, 3, Offered(s, n));
  }

  lemma PacketIsOffered(s: State)
    requires s.status.Running? && !s.cancel && s.helper.WantLock? && s.mutex.Free? && !s.slot.occupied
    requires s.slot.buffer.Some? && |s.helper.p| <= |s.slot.buffer.value| < 0x1_0000
    requires s.event.Some? && s.event.value < EVENTFD_MAX
    ensures var copying := s.(helper := Copying(s.helper.p, 0), mutex := Helper);
      Leads(s, Repeat(HelperStep, |s.helper.p| + 8), Offered(Copied(copying), |s.helper.p|))
  {
    var p := s.helper.p;
    var copying := s.(helper := Copying(p, 0), mutex := Helper);
    var offered := Offered(Copied(copying), |p|);
    Twice(Step, s, HelperStep, s.(helper := TestSlot(p), mutex := Helper), copying);
    HelperCopies(copying, |p|);
    Again(Step, s, HelperStep, 2, copying, |p|, Copied(copying));
    CopyIsOffered(Copied(copying));
    Again(Step, s, HelperStep, |p| + 2, Copied(copying), 6, offered);
  }

  /** Core hears of a readable eventfd and drains it. */
  lemma EventIsDrained(s: State)
    requires s.status.Running? && s.core.Idle? && s.event.Some? && s.event.value > 0
    ensures Leads(s, [Poll] + Repeat(CoreStep, 2), s.(event := Some(0), announced := s.announced || s.bound))
  {
    var heard := s.(event := Some(0), announced := s.announced || s.bound);
    Twice(Step, s.(core := Polled), CoreStep, s.(core := Drained, event := Some(0)), heard);
    First(Step, s, Poll, s.(core := Polled), Repeat(CoreStep, 2), heard);
  }

  /** The host sends `p`, the helper takes it, Core drains the eventfd and reads. */
  function Journey(p: Packet, cap: nat): seq<Action> {
    (([HostPacket(p)] + Repeat(HelperStep, |p| + 8)) + ([Poll] + Repeat(CoreStep, 2)))
    + ([CallRead(cap)] + Repeat(CoreStep, Min(|p|, cap) + 7))
  }

  /** `s` with the packet in the slot and announced to Core. */
  function Heard(s: State, p: Packet): State
    requires s.slot.buffer.Some? && |p| <= |s.slot.buffer.value|
  {
    s.(slot := Slot(Some(p + s.slot.buffer.value[|p|..]), |p|, true),
       hist := s.hist.(fromHost := s.hist.fromHost + [p]), event := Some(0), announced := s.bound)
  }

  lemma HostPacketIsHeard(s: State, p: Packet)
    requires s.status.Running? && !s.cancel && s.helper.InRead? && s.core.Idle? && s.mutex.Free? && !s.slot.occupied
    requires s.slot.buffer.Some? && |p| <= s.max && |p| <= |s.slot.buffer.value| < 0x1_0000
    requires s.event.Some? && s.event.value < EVENTFD_MAX
    ensures Leads(s, ([HostPacket(p)] + Repeat(HelperStep, |p| + 8)) + ([Poll] + Repeat(CoreStep, 2)), Heard(s, p))
  {
    var read := s.(helper := WantLock(p), hist := s.hist.(fromHost := s.hist.fromHost + [p]));
    var offered := Offered(Copied(read.(helper := Copying(p, 0), mutex := Helper)), |p|);
    PacketIsOffered(read);
    First(Step, s, HostPacket(p), read, Repeat(HelperStep, |p| + 8), offered);
    EventIsDrained(offered);
    Then(Step, s, [HostPacket(p)] + Repeat(HelperStep, |p| + 8), offered, [Poll] + Repeat(CoreStep, 2), Heard(s, p));
  }

  lemma JourneyLeads(s: State, p: Packet, cap: nat)
    requires s.status.Running? && !s.cancel && s.helper.InRead? && s.core.Idle? && s.mutex.Free? && !s.slot.occupied
    requires s.slot.buffer.Some? && |p| <= s.max && |p| <= |s.slot.buffer.value| < 0x1_0000
    requires s.event.Some? && s.event.value < EVENTFD_MAX
    ensures Leads(s, Journey(p, cap), Delivered(Heard(s, p), cap))
  {
    var heard := Heard(s, p);
    HostPacketIsHeard(s, p);
    ReadLeads(heard, cap);
    Then(Step, s, ([HostPacket(p)] + Repeat(HelperStep, |p| + 8)) + ([Poll] + Repeat(CoreStep, 2)), heard,
         [CallRead(cap)] + Repeat(CoreStep, Min(|p|, cap) + 7), Delivered(heard, cap));
  }

  /** The whole way of one packet: the host sends it, the helper publishes and announces it,
      the pass of Core drains the announcement and signals the interface, `iface_read` returns
      it cut to the caller's size, and the helper is back in read in front of an empty slot. */
  lemma HostPacketIsDelivered(s: State, p: Packet, cap: nat)
    requires Inv(s) && s.status.Running? && s.helper.InRead? && s.core.Idle? && s.mutex.Free? && !s.slot.occupied
    requires |p| <= s.max && s.event.Some? && s.event.value < EVENTFD_MAX
    ensures var t := Run(s, Journey(p, cap));
      && t.hist == History(s.hist.fromHost + [p], s.hist.taken + [Delivery(Cut(p, cap), cap)], s.hist.lost)
      && !t.slot.occupied && t.event == Some(0) && (s.bound ==> t.announced)
      && t.status.Running? && t.helper.InRead? && t.core.Idle? && t.mutex.Free?
  {
    JourneyLeads(s, p, cap);
    LeadsIsRun(s, Journey(p, cap), Delivered(Heard(s, p), cap));
    assert Published(Heard(s, p).slot) == p;
  }

  // ------------------------------------------------------------- iface_read_ready

  /** `iface_read_ready` disturbs nothing, and its answer is whether the slot was full. */
  lemma ReadyAnswers(s: State)
    requires Inv(s) && s.status.Running? && s.core.Idle? && s.mutex.Free?
    ensures Run(s, [CallReady] + Repeat(CoreStep, 2)) == s.(core := PeekUnlock(s.slot.occupied), mutex := Core)
    ensures Run(s, [CallReady] + Repeat(CoreStep, 3)) == s
  {
    var called, locked := s.(core := PeekLock), s.(core := PeekTest, mutex := Core);
    var answered := s.(core := PeekUnlock(s.slot.occupied), mutex := Core);
    Twice(Step, called, CoreStep, locked, answered);
    First(Step, s, CallReady, called, Repeat(CoreStep, 2), answered);
    LeadsIsRun(s, [CallReady] + Repeat(CoreStep, 2), answered);
    Thrice(Step, called, CoreStep, locked, answered, s);
    First(Step, s, CallReady, called, Repeat(CoreStep, 3), s);
    LeadsIsRun(s, [CallReady] + Repeat(CoreStep, 3), s);
  }

  /** Core is not inside a read or a stop. */
  predicate LeavesSlot(c: CorePc) {
    c.Idle? || c.PeekLock? || c.PeekTest? || c.PeekUnlock? || c.Polled? || c.Drained?
  }

  lemma FullSlotStays(s: State, a: Action)
    requires Inv(s) && s.slot.occupied && LeavesSlot(s.core) && !a.CallRead? && !a.Stop?
    ensures Step(s, a).slot == s.slot && LeavesSlot(Step(s, a).core)
  {
    if a.HelperStep? {
      HelperLeavesCore(s);
      HelperLeavesFull(s);
    } else if a.CoreStep? {
      assert CoreNext(s) == PeekAndDrain(s);
    }
  }

  lemma HelperLeavesFull(s: State)
    requires Inv(s) && s.slot.occupied
    ensures HelperNext(s).slot == s.slot
  {}

  predicate NeitherReadsNorStops(actions: seq<Action>) {
    forall i :: 0 <= i < |actions| ==> !actions[i].CallRead? && !actions[i].Stop?
  }

  /** A positive answer does not go stale: until Core reads or stops the endpoint, the same
      packet is in the slot, whatever happens meanwhile. */
  lemma {:induction false} ReadyPacketWaits(s: State, actions: seq<Action>)
    requires Inv(s) && LeavesSlot(s.core) && NeitherReadsNorStops(actions)
    requires s.core == PeekUnlock(true) || s.slot.occupied
    ensures Run(s, actions).slot == s.slot && s.slot.occupied
    decreases |actions|
  {
    if actions != [] {
      FullSlotStays(s, actions[0]);
      StepKeepsInv(s, actions[0]);
      ReadyPacketWaits(Step(s, actions[0]), actions[1..]);
    }
  }

  // -------------------------------------------------------------------- the kernel

  /** A read that a signal interrupts is taken up again, and nothing else has happened. */
  lemma InterruptedReadIsRetried(s: State)
    requires s.status.Running? && s.helper.InRead? && !s.cancel
    ensures Run(s, [Interrupted] + Repeat(HelperStep, 1)) == s
  {
    Once(Step, s.(helper := EnterRead), HelperStep, s);
    First(Step, s, Interrupted, s.(helper := EnterRead), Repeat(HelperStep, 1), s);
    LeadsIsRun(s, [Interrupted] + Repeat(HelperStep, 1), s);
  }

  /** A helper that wakes up for no reason in front of a full slot goes back to sleep. */
  lemma SpuriousWakeIsHarmless(s: State)
    requires s.status.Running? && s.helper.Asleep? && s.slot.occupied && s.mutex.Free? && !s.cancel
    ensures Run(s, [SpuriousWake] + Repeat(HelperStep, 2)) == s
  {
    var woken := s.(helper := Woken(s.helper.p));
    Twice(Step, woken, HelperStep, s.(helper := TestSlot(s.helper.p), mutex := Helper), s);
    First(Step, s, SpuriousWake, woken, Repeat(HelperStep, 2), s);
    LeadsIsRun(s, [SpuriousWake] + Repeat(HelperStep, 2), s);
  }

  lemma FinishedStays(s: State, a: Action)
    requires Inv(s) && s.helper.Finished? && !Stopping(s.core) && !a.Stop?
    ensures Step(s, a).helper.Finished? && !Stopping(Step(s, a).core)
  {
    if a.CoreStep? && s.status.Running? && CoreNext(s).status.Running? {
      CoreStaysAtWork(s);
    }
  }

  /** When the generation ends under a helper in read, the helper ends with it and stays ended
      until the endpoint is stopped. */
  lemma {:induction false} EndedHelperStaysEnded(s: State, actions: seq<Action>)
    requires Inv(s) && s.status.Running? && !Stopping(s.core)
    requires forall i :: 0 <= i < |actions| ==> !actions[i].Stop?
    ensures s.helper.InRead? ==> Run(Step(s, HostEnd), actions).helper.Finished?
    ensures s.helper.Finished? ==> Run(s, actions).helper.Finished?
    decreases |actions|, if s.helper.InRead? then 1 else 0
  {
    if s.helper.InRead? {
      StepKeepsInv(s, HostEnd);
      EndedHelperStaysEnded(Step(s, HostEnd), actions);
    } else if s.helper.Finished? && actions != [] {
      StepKeepsInv(s, actions[0]);
      FinishedStays(s, actions[0]);
      if Step(s, actions[0]).status.Running? {
        EndedHelperStaysEnded(Step(s, actions[0]), actions[1..]);
      } else {
        DeadStaysDead(Step(s, actions[0]), actions[1..]);
      }
    }
  }

  /** After a usb_init over a running helper, the helper's next notification ends the process. */
  lemma ResetKillsNotifier(s: State)
    requires s.status.Running? && s.core.Idle? && s.helper.Notify? && !s.cancel
    ensures Run(s, [Reset] + Repeat(HelperStep, 1)).status.Died?
  {
    var reset := s.(event := None);
    var dead := Step(reset, HelperStep);
    Once(Step, reset, HelperStep, dead);
    First(Step, s, Reset, reset, Repeat(HelperStep, 1), dead);
    LeadsIsRun(s, [Reset] + Repeat(HelperStep, 1), dead);
  }

  // --------------------------------------------------------------------- stopping

  /** These steps after a stop leave nothing of the activation: no helper, no buffer, no
      eventfd, no packet, and a free mutex. */
  ghost predicate Stopped(s: State, actions: seq<Action>) {
    var t := Run(s, [Stop] + actions);
    && |actions| <= Rank(s.helper, s.max) + 5
    && t.status.Running? && t.core == (if s.core.Polled? then Stale else Idle)
    && t.helper.Absent? && t.slot == Slot(None, 0, false) && t.event.None? && t.mutex.Free? && !t.cancel
  }

  lemma TearsDown(s: State)
    requires s.status.Running? && s.core.StopCloseEvent?
    ensures var t := Run(s, Repeat(CoreStep, 3));
      && t.status == s.status && t.core == (if s.core.late then Stale else Idle)
      && t.helper == s.helper && t.mutex == s.mutex && t.cancel == s.cancel
      && t.slot == Slot(None, 0, false) && t.event.None?
  {
    var late := s.core.late;
    var closed := s.(core := StopFree(late), event := None);
    var freed := TearDown(closed);
    var done := TearDown(freed);
    Thrice(Step, s, CoreStep, closed, freed, done);
    LeadsIsRun(s, Repeat(CoreStep, 3), done);
  }

  lemma JoinedThenDown(s: State, actions: seq<Action>)
    requires Inv(s) && s.core.StopJoin? && s.status.Running? && Joined(s, actions)
    ensures var t := Run(s, actions + Repeat(CoreStep, 3));
      && t.status.Running? && t.core == (if s.core.late then Stale else Idle)
      && t.helper.Absent? && t.slot == Slot(None, 0, false) && t.event.None? && t.mutex.Free? && !t.cancel
  {
    var joined := Run(s, actions);
    RunKeepsInv(s, actions);
    TearsDown(joined);
    LeadsIsRun(s, actions, joined);
    LeadsIsRun(joined, Repeat(CoreStep, 3), Run(joined, Repeat(CoreStep, 3)));
    Then(Step, s, actions, joined, Repeat(CoreStep, 3), Run(joined, Repeat(CoreStep, 3)));
    LeadsIsRun(s, actions + Repeat(CoreStep, 3), Run(joined, Repeat(CoreStep, 3)));
  }

  /** A stop comes to its end from every state in which Core can begin it. */
  lemma StopCompletes(s: State)
    requires Inv(s) && s.status.Running? && (s.core.Idle? || s.core.Polled?)
    ensures exists actions :: Stopped(s, actions)
  {
    var stopping := Step(s, Stop);
    StepKeepsInv(s, Stop);
    if s.helper.Absent? {
      TearsDown(stopping);
      RunFirst(s, Stop, Repeat(CoreStep, 3));
      assert Stopped(s, Repeat(CoreStep, 3));
    } else {
      var joining := Step(stopping, CoreStep);
      StepKeepsInv(stopping, CoreStep);
      JoinReturns(joining);
      var actions :| Joined(joining, actions);
      JoinedThenDown(joining, actions);
      var rest := actions + Repeat(CoreStep, 3);
      RunFirst(stopping, CoreStep, rest);
      RunFirst(s, Stop, [CoreStep] + rest);
      assert Stopped(s, [CoreStep] + rest);
    }
  }
}
