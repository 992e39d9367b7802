/** What the legacy OUT endpoint gets done when firmware is polite: a packet the host sends is
    handed to firmware's callback, whole, and the endpoint is ready for the next one. */
module LegacyOutDelivery {
  import opened Common
  import opened LegacyOut
  import opened Scripts

  /** These actions lead from `s` to `t`. */
  ghost predicate Leads(s: State, actions: seq<Action>, t: State) {
    Scripts.Leads(Step, s, actions, t)
  }

  lemma {:induction false} LeadsIsRun(s: State, actions: seq<Action>, t: State)
    ensures Leads(s, actions, t) <==> Run(s, actions) == t
    decreases |actions|
  {
    if actions != [] {
      LeadsIsRun(Step(s, actions[0]), actions[1..], t);
    }
  }

  // ------------------------------------------------------------------- the helper

  /** `buffer` with the bytes of p in front. */
  function Front(p: Packet, buffer: seq<byte>): seq<byte>
    requires |p| <= |buffer|
  {
    p + buffer[|p|..]
  }

  /** The memcpy of the helper is over. */
  function Copied(s: State): State
    requires s.helper.Copying? && s.slot.buffer.Some? && |s.helper.p| <= |s.slot.buffer.value|
  {
    s.(helper := Copying(s.helper.p, |s.helper.p|),
       slot := s.slot.(buffer := Some(Front(s.helper.p, s.slot.buffer.value))))
  }

  lemma {:induction false} HelperCopies(s: State, n: nat)
    requires s.status.Running? && s.helper.Copying? && n == |s.helper.p| - s.helper.k
    requires s.slot.buffer.Some? && s.source.data.Some?
    requires var p, b, data := s.helper.p, s.slot.buffer.value, s.source.data.value;
      |p| <= |b| && |p| <= |data| && data[..|p|] == p && b[..s.helper.k] == p[..s.helper.k]
    ensures Leads(s, Repeat(HelperStep, n), Copied(s))
    decreases n
  {
    var p, b, k := s.helper.p, s.slot.buffer.value, s.helper.k;
    if n == 0 {
      assert Front(p, b) == b[..|p|] + b[|p|..] == b;
    } else {
      assert s.source.data.value[k] == s.source.data.value[..|p|][k] == p[k];
      CopyOneMore(b, p, k);
      assert b[k := p[k]][|p|..] == b[|p|..];
      var t := s.(helper := Copying(p, k + 1), slot := s.slot.(buffer := Some(b[k := p[k]])));
      assert Step(s, HelperStep) == t;
      Once(Step, s, HelperStep, t);
      HelperCopies(t, n - 1);
      Again(Step, s, HelperStep, 1, t, n - 1, Copied(s));
    }
  }

  lemma PacketIsPublished(s: State)
    requires s.status.Running? && s.helper.Copying? && s.helper.k == |s.helper.p| < 0x1_0000
    ensures Leads(s, Repeat(HelperStep, 3),
                  s.(helper := Unlocking, slot := s.slot.(length := |s.helper.p|, occupied := true)))
  {
    var p := s.helper.p;
    var measured := s.(helper := SetOccupied(p), slot := s.slot.(length := |p|));
    Thrice(Step, s, HelperStep, s.(helper := SetLength(p)), measured,
           measured.(helper := Unlocking, slot := measured.slot.(occupied := true)));
  }

  /** read is called again. */
  function Reading(s: State): State {
    s.(helper := InRead(if s.source.data.None? then 0 else s.source.serial))
  }

  lemma PacketIsAnnounced(s: State)
    requires s.status.Running? && !s.cancel && s.helper.Unlocking? && s.event.Some? && s.event.value < EVENTFD_MAX
    ensures Leads(s, Repeat(HelperStep, 3), Reading(s).(mutex := Free, event := Some(s.event.value + 1)))
  {
    var next := s.(helper := EnterRead, mutex := Free, event := Some(s.event.value + 1));
    Thrice(Step, s, HelperStep, s.(helper := Notify, mutex := Free), next, Reading(next));
  }

  /** The `n` bytes in the slot are announced. */
  function Offered(s: State, n: nat): State
    requires s.event.Some?
  {
    Reading(s).(mutex := Free, slot := s.slot.(length := n, occupied := true), event := Some(s.event.value + 1))
  }

  lemma CopyIsOffered(s: State)
    requires s.status.Running? && !s.cancel && s.helper.Copying? && s.helper.k == |s.helper.p| < 0x1_0000
    requires s.event.Some? && s.event.value < EVENTFD_MAX
    ensures Leads(s, Repeat(HelperStep, 6), Offered(s, |s.helper.p|))
  {
    var full := s.(helper := Unlocking, slot := s.slot.(length := |s.helper.p|, occupied := true));
    PacketIsPublished(s);
    PacketIsAnnounced(full);
    Again(Step, s, HelperStep, 3, full, 3, Offered(s, |s.helper.p|));
  }

  lemma PacketIsOffered(s: State)
    requires s.status.Running? && !s.cancel && s.helper.WantLock? && s.mutex.Free? && !s.slot.occupied
    requires s.event.Some? && s.event.value < EVENTFD_MAX && s.slot.buffer.Some? && s.source.data.Some?
    requires var p, data := s.helper.p, s.source.data.value;
      |p| <= |s.slot.buffer.value| < 0x1_0000 && |p| <= |data| && data[..|p|] == p
    ensures var copying := s.(helper := Copying(s.helper.p, 0), mutex := Helper);
      Leads(s, Repeat(HelperStep, |s.helper.p| + 8), Offered(Copied(copying), |s.helper.p|))
  {
    var p := s.helper.p;
    var copying := s.(helper := Copying(p, 0), mutex := Helper);
    Twice(Step, s, HelperStep, s.(helper := TestSlot(p), mutex := Helper), copying);
    HelperCopies(copying, |p|);
    Again(Step, s, HelperStep, 2, copying, |p|, Copied(copying));
    CopyIsOffered(Copied(copying));
    Again(Step, s, HelperStep, |p| + 2, Copied(copying), 6, Offered(Copied(copying), |p|));
  }

  // ----------------------------------------------------------------- the callback

  /** The packet in a full slot. */
  function Published(slot: Slot): Packet
    requires slot.length <= |Bytes(slot)|
  {
    Bytes(slot)[..slot.length]
  }

  lemma {:induction false} ReadCopies(s: State, n: nat)
    requires s.status.Running? && s.core.ReadCopy? && n == s.slot.length - |s.core.got|
    requires s.slot.length <= |Bytes(s.slot)| && s.core.got == Bytes(s.slot)[..|s.core.got|]
    ensures Leads(s, Repeat(CoreStep, n), s.(core := ReadCopy(s.core.cap, Published(s.slot))))
    decreases n
  {
    if n > 0 {
      var t := Step(s, CoreStep);
      assert t.core.got == Bytes(s.slot)[..|s.core.got| + 1];
      Once(Step, s, CoreStep, t);
      ReadCopies(t, n - 1);
      Again(Step, s, CoreStep, 1, t, n - 1, s.(core := ReadCopy(s.core.cap, Published(s.slot))));
    }
  }

  /** Firmware has the packet. */
  function Taken(s: State): State
    requires s.slot.length <= |Bytes(s.slot)|
  {
    s.(core := Idle, mutex := Free, slot := s.slot.(occupied := false),
       hist := s.hist.(taken := s.hist.taken + [Published(s.slot)]))
  }

  lemma ReadEnds(s: State, cap: nat)
    requires s.status.Running? && s.slot.length <= |Bytes(s.slot)| && s.core == ReadCopy(cap, Published(s.slot))
    ensures Leads(s, Repeat(CoreStep, 3), Taken(s))
  {
    var got := Published(s.slot);
    Thrice(Step, s, CoreStep, s.(core := ReadClear(got)), Taken(s).(core := ReadUnlock, mutex := s.mutex), Taken(s));
  }

  lemma ReadTakesPacket(s: State, cap: nat)
    requires s.status.Running? && s.core == ReadLock(cap) && s.mutex.Free? && s.slot.occupied
    requires s.slot.length <= cap && s.slot.length <= |Bytes(s.slot)|
    ensures Leads(s, Repeat(CoreStep, s.slot.length + 5), Taken(s))
  {
    var n := s.slot.length;
    var copying := s.(core := ReadCopy(cap, []), mutex := Core);
    var copied := copying.(core := ReadCopy(cap, Published(s.slot)));
    Twice(Step, s, CoreStep, s.(core := ReadTest(cap), mutex := Core), copying);
    ReadCopies(copying, n);
    Again(Step, s, CoreStep, 2, copying, n, copied);
    ReadEnds(copied, cap);
    assert Taken(copied) == Taken(s);
    Again(Step, s, CoreStep, n + 2, copied, 3, Taken(s));
  }

  /** The loop reads the notification and runs the callback, which reads the packet. */
  function Serving(n: nat, cap: nat): seq<Action> {
    [Poll] + ([CoreStep] + ([Serve(cap)] + Repeat(CoreStep, n + 5)))
  }

  lemma CallbackTakesPacket(s: State, cap: nat)
    requires s.status.Running? && s.core.Idle? && s.enabled && s.event == Some(1) && s.mutex.Free?
    requires s.slot.occupied && s.slot.length <= cap && s.slot.length <= |Bytes(s.slot)|
    ensures Leads(s, Serving(s.slot.length, cap), Taken(s).(event := Some(0)))
  {
    var n := s.slot.length;
    var polled, called := s.(core := Polled(true)), s.(core := Callback, event := Some(0));
    var reading := called.(core := ReadLock(cap));
    ReadTakesPacket(reading, cap);
    assert Taken(reading) == Taken(s).(event := Some(0));
    First(Step, called, Serve(cap), reading, Repeat(CoreStep, n + 5), Taken(reading));
    First(Step, polled, CoreStep, called, [Serve(cap)] + Repeat(CoreStep, n + 5), Taken(reading));
    First(Step, s, Poll, polled, [CoreStep] + ([Serve(cap)] + Repeat(CoreStep, n + 5)), Taken(reading));
  }

  // --------------------------------------------------------------------- end to end

  /** The host sends p, the helper takes it, and firmware is called for it. */
  function Journey(p: Packet, cap: nat): seq<Action> {
    ([HostPacket(p)] + Repeat(HelperStep, |p| + 8)) + Serving(|p|, cap)
  }

  /** `s` with p read, stored and announced. */
  function Sent(s: State, p: Packet): State
    requires s.slot.buffer.Some? && s.source.data.Some? && s.event.Some?
    requires |p| <= |s.slot.buffer.value| && |p| <= |s.source.data.value|
  {
    s.(slot := Slot(Some(Front(p, s.slot.buffer.value)), |p|, true),
       source := s.source.(data := Some(Front(p, s.source.data.value))),
       event := Some(s.event.value + 1), hist := s.hist.(fromHost := s.hist.fromHost + [p]))
  }

  lemma HostPacketIsOffered(s: State, p: Packet)
    requires s.status.Running? && !s.cancel && s.mutex.Free? && !s.slot.occupied
    requires s.event.Some? && s.event.value < EVENTFD_MAX && s.slot.buffer.Some? && s.source.data.Some?
    requires s.helper == InRead(s.source.serial) && s.source.serial > 0
    requires |p| <= s.max && |p| <= |s.slot.buffer.value| < 0x1_0000 && |p| <= |s.source.data.value|
    ensures Leads(s, [HostPacket(p)] + Repeat(HelperStep, |p| + 8), Sent(s, p))
  {
    var data := Front(p, s.source.data.value);
    var read := s.(helper := WantLock(p), hist := s.hist.(fromHost := s.hist.fromHost + [p]),
                   source := s.source.(data := Some(data)));
    assert Step(s, HostPacket(p)) == read;
    assert data[..|p|] == p;
    PacketIsOffered(read);
    var offered := Offered(Copied(read.(helper := Copying(p, 0), mutex := Helper)), |p|);
    assert offered == Sent(s, p);
    First(Step, s, HostPacket(p), read, Repeat(HelperStep, |p| + 8), offered);
  }

  /** The whole way of one packet, from any state of a polite run in which the endpoint is at
      rest: the host sends it, the helper stores and announces it, the loop calls firmware, and
      firmware gets it uncut; then the slot is empty, nothing is owed and the helper is in read
      again. */
  lemma HostPacketIsDelivered(s: State, p: Packet, cap: nat)
    requires Inv(s) && s.status.Running? && s.helper.InRead? && s.core.Idle? && s.enabled && !s.slot.occupied
    requires s.mutex.Free? && s.event == Some(0) && |p| <= s.max && |p| <= cap
    ensures var t := Run(s, Journey(p, cap));
      && t.hist == History(s.hist.fromHost + [p], s.hist.taken + [p], s.hist.lost)
      && !t.slot.occupied && t.event == Some(0) && t.enabled
      && t.status.Running? && t.helper.InRead? && t.core.Idle? && t.mutex.Free?
  {
    var sent := Sent(s, p);
    HostPacketIsOffered(s, p);
    assert Published(sent.slot) == p;
    CallbackTakesPacket(sent, cap);
    var done := Taken(sent).(event := Some(0));
    Then(Step, s, [HostPacket(p)] + Repeat(HelperStep, |p| + 8), sent, Serving(|p|, cap), done);
    LeadsIsRun(s, Journey(p, cap), done);
  }

  // -------------------------------------------------------------------- the kernel

  /** A read that a signal interrupts is taken up again, and nothing else has happened. */
  lemma InterruptedReadIsRetried(s: State)
    requires Inv(s) && s.status.Running? && s.helper.InRead? && !s.cancel
    ensures Run(s, [Interrupted] + Repeat(HelperStep, 1)) == s
  {
    var entering := s.(helper := EnterRead);
    Once(Step, entering, HelperStep, s);
    First(Step, s, Interrupted, entering, Repeat(HelperStep, 1), s);
    LeadsIsRun(s, [Interrupted] + Repeat(HelperStep, 1), s);
  }

  /** A read into the NULL that a stop has left fails for every packet with bytes. */
  lemma NullReadFails(s: State, p: Packet)
    requires s.status.Running? && s.helper.EnterRead? && !s.cancel && s.source.data.None? && |p| <= s.max
    ensures var t := Step(Step(s, HelperStep), HostPacket(p));
      if p == [] then t == s.(helper := WantLock([]), hist := s.hist.(fromHost := s.hist.fromHost + [[]]))
      else t.status.Died? && t.cause.HostFailure? && t.hist == s.hist
  {
    assert Step(s, HelperStep) == s.(helper := InRead(0));
  }

  lemma FinishedStays(s: State, a: Action)
    requires s.helper.Finished? && !Stopping(s.core) && !a.Stop? && !a.Start?
    ensures Step(s, a).helper.Finished? && !Stopping(Step(s, a).core)
  {
    if a.CoreStep? {
      CoreLeavesFinished(s);
    } else if a.Overwritten? {
      OlderLeavesCore(s, a.i, a.act);
    } else if CoreAction(a) {
      BeginningLeavesFinished(s, a);
    }
  }

  lemma OlderLeavesCore(s: State, i: nat, a: Action)
    ensures OlderActs(s, i, a).helper == s.helper && OlderActs(s, i, a).core == s.core
  {}

  lemma BeginningLeavesFinished(s: State, a: Action)
    requires s.helper.Finished? && !Stopping(s.core) && !a.Stop? && !a.Start?
    ensures CoreBegins(s, a).helper.Finished? && !Stopping(CoreBegins(s, a).core)
  {}

  lemma CoreLeavesFinished(s: State)
    requires s.helper.Finished? && !Stopping(s.core)
    ensures CoreNext(s).helper.Finished? && !Stopping(CoreNext(s).core)
  {}

  /** When the generation ends under a helper in read, the helper ends with it and stays ended
      until the endpoint is stopped or started over. */
  lemma {:induction false} EndedHelperStaysEnded(s: State, actions: seq<Action>)
    requires s.status.Running? && !Stopping(s.core)
    requires forall i :: 0 <= i < |actions| ==> !actions[i].Stop? && !actions[i].Start?
    ensures s.helper.InRead? ==> Run(Step(s, HostEnd), actions).helper.Finished?
    ensures s.helper.Finished? ==> Run(s, actions).helper.Finished?
    decreases |actions|, if s.helper.InRead? then 1 else 0
  {
    if s.helper.InRead? {
      EndedHelperStaysEnded(Step(s, HostEnd), actions);
    } else if s.helper.Finished? && actions != [] {
      FinishedStays(s, actions[0]);
      if Step(s, actions[0]).status.Running? {
        EndedHelperStaysEnded(Step(s, actions[0]), actions[1..]);
      } else {
        DeadStaysDead(Step(s, actions[0]), actions[1..]);
      }
    }
  }

  /** After a usbInit over a running helper, the helper's next notification ends the process. */
  lemma ResetKillsNotifier(s: State)
    requires s.status.Running? && s.core.Idle? && s.helper.Notify? && !s.cancel
    ensures Run(s, [Reset] + Repeat(HelperStep, 1)).status.Died?
  {
    var reset := s.(event := None);
    var dead := Step(reset, HelperStep);
    Once(Step, reset, HelperStep, dead);
    First(Step, s, Reset, reset, Repeat(HelperStep, 1), dead);
    LeadsIsRun(s, [Reset] + Repeat(HelperStep, 1), dead);
  }

  // ------------------------------------------------------------ starting, stopping

  /** An ENABLE of a disabled bus, over no helper, starts a fresh activation whatever the one
      before has left: an empty slot, an open eventfd that holds 0, and a helper. */
  lemma StartIsFresh(s: State, garbage: seq<byte>, stale: seq<byte>)
    requires Inv(s) && s.status.Running? && s.core.Idle? && !s.enabled && s.helper.Absent?
    requires |garbage| == s.max == |stale|
    ensures Step(s, Start(garbage, stale)) ==
      s.(helper := EnterRead, slot := Slot(Some(garbage), 0, false),
         source := Source(s.source.serial + 1, Some(stale)), event := Some(0), enabled := true,
         hist := History([], [], []))
  {}

  /** Upper bound on the moves a cancelled helper still makes. */
  function Rank(h: HelperPc, max: nat): nat {
    match h
    case Absent => 0
    case Finished => 0
    case EnterRead => 1
    case Notify => 1
    case Unlocking => 2
    case SetOccupied(_) => 3
    case SetLength(_) => 4
    case Copying(p, k) => if k <= |p| then 5 + |p| - k else 5
    case TestSlot(p) => 6 + |p|
    case WantLock(p) => 7 + |p|
    case InRead(_) => 8 + max
  }

  /** The next move of a helper that is being cancelled. */
  function CancelledMove(h: HelperPc): Action {
    if h.InRead? then CancelActs else HelperStep
  }

  /** A cancelled helper is never stuck: it gets closer to its end, or it finds the slot full
      and ends the process. */
  lemma CancelledHelperMoves(s: State)
    requires Inv(s) && s.cancel && s.status.Running? && !s.helper.Finished?
    ensures var t := Step(s, CancelledMove(s.helper));
      || (t.status.Died? && t.cause.Overrun?)
      || (t.cancel && t.status.Running? && t.core == s.core && t.max == s.max && t.enabled == s.enabled
          && Rank(t.helper, s.max) < Rank(s.helper, s.max))
  {
    assert s.mutex.Free? || s.mutex.Helper?;
  }

  /** These steps lead to the return of pthread_join, or the process has ended on an overrun. */
  ghost predicate Joined(s: State, actions: seq<Action>) {
    var t := Run(s, actions);
    && |actions| <= Rank(s.helper, s.max) + 1
    && (|| (t.status.Died? && t.cause.Overrun?)
        || (&& t.status.Running? && t.helper.Absent? && t.core.StopCloseEvent? && t.mutex.Free? && !t.cancel
            && t.enabled == s.enabled))
  }

  lemma RunFirst(s: State, a: Action, rest: seq<Action>)
    ensures Run(s, [a] + rest) == Run(Step(s, a), rest)
  {
    assert ([a] + rest)[1..] == rest;
  }

  lemma JoinsAfter(s: State, rest: seq<Action>)
    requires Inv(s) && s.cancel && s.status.Running? && !s.helper.Finished?
    requires var t := Step(s, CancelledMove(s.helper));
      if t.status.Running? then Joined(t, rest) else rest == []
    ensures Joined(s, [CancelledMove(s.helper)] + rest)
  {
    CancelledHelperMoves(s);
    RunFirst(s, CancelledMove(s.helper), rest);
  }

  lemma {:induction false} JoinReturns(s: State)
    requires Inv(s) && s.cancel && s.status.Running?
    ensures exists actions :: Joined(s, actions)
    decreases Rank(s.helper, s.max)
  {
    if s.helper.Finished? {
      StepKeepsInv(s, CoreStep);
      RunFirst(s, CoreStep, []);
      assert Joined(s, [CoreStep] + []);
    } else {
      var t := Step(s, CancelledMove(s.helper));
      CancelledHelperMoves(s);
      if t.status.Running? {
        StepKeepsInv(s, CancelledMove(s.helper));
        JoinReturns(t);
        var rest :| Joined(t, rest);
        JoinsAfter(s, rest);
      } else {
        JoinsAfter(s, []);
      }
    }
  }

  /** These steps after a stop leave nothing of the activation, or the process has ended on an
      overrun. */
  ghost predicate Stopped(s: State, actions: seq<Action>) {
    var t := Run(s, [Stop] + actions);
    && |actions| <= Rank(s.helper, s.max) + 5
    && (|| (t.status.Died? && t.cause.Overrun?)
        || (&& t.status.Running? && t.core.Idle? && !t.enabled && t.helper.Absent? && !t.cancel
            && t.slot == Slot(None, 0, false) && t.source.data.None? && t.event.None? && t.mutex.Free?))
  }

  lemma TearsDown(s: State)
    requires s.status.Running? && s.core.StopCloseEvent?
    ensures var t := Run(s, Repeat(CoreStep, 3));
      && t.status == s.status && t.core.Idle? && t.helper == s.helper && t.mutex == s.mutex
      && t.cancel == s.cancel && t.enabled == s.enabled
      && t.slot == Slot(None, 0, false) && t.source.data.None? && t.event.None?
  {
    var closed := s.(core := StopFree, event := None);
    var freed := TearDown(closed);
    Thrice(Step, s, CoreStep, closed, freed, TearDown(freed));
    LeadsIsRun(s, Repeat(CoreStep, 3), TearDown(freed));
  }

  lemma JoinedThenDown(s: State, actions: seq<Action>)
    requires Inv(s) && s.core.StopJoin? && s.status.Running? && Joined(s, actions)
    ensures var t := Run(s, actions + Repeat(CoreStep, 3));
      || (t.status.Died? && t.cause.Overrun?)
      || (&& t.status.Running? && t.core.Idle? && !t.enabled && t.helper.Absent? && !t.cancel
          && t.slot == Slot(None, 0, false) && t.source.data.None? && t.event.None? && t.mutex.Free?)
  {
    var joined := Run(s, actions);
    if joined.status.Running? {
      TearsDown(joined);
    } else {
      DeadStaysDead(joined, Repeat(CoreStep, 3));
    }
    LeadsIsRun(s, actions, joined);
    LeadsIsRun(joined, Repeat(CoreStep, 3), Run(joined, Repeat(CoreStep, 3)));
    Then(Step, s, actions, joined, Repeat(CoreStep, 3), Run(joined, Repeat(CoreStep, 3)));
    LeadsIsRun(s, actions + Repeat(CoreStep, 3), Run(joined, Repeat(CoreStep, 3)));
  }

  /** A stop comes to its end from every state of a polite run in which it can begin. */
  lemma StopCompletes(s: State)
    requires Inv(s) && s.status.Running? && s.core.Idle?
    ensures exists actions :: Stopped(s, actions)
  {
    var stopping := Step(s, Stop);
    StepKeepsInv(s, Stop);
    if s.helper.Absent? {
      TearsDown(stopping);
      RunFirst(s, Stop, Repeat(CoreStep, 3));
      assert Stopped(s, Repeat(CoreStep, 3));
    } else {
      var joining := Step(stopping, CoreStep);
      StepKeepsInv(stopping, CoreStep);
      JoinReturns(joining);
      var actions :| Joined(joining, actions);
      JoinedThenDown(joining, actions);
      var rest := actions + Repeat(CoreStep, 3);
      RunFirst(stopping, CoreStep, rest);
      RunFirst(s, Stop, [CoreStep] + rest);
      assert Stopped(s, [CoreStep] + rest);
    }
  }
}
