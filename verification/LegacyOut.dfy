/** The legacy OUT endpoint: `endpoint_thread_main` hands one packet at a time to
    firmware. There is no condition variable: the helper treats a slot that is still
    full as an overrun and ends the process, and the controller insists that every
    eventfd read returns exactly 1.

    Firmware is expected to read one packet per completion callback, before anything
    else, and none outside; `SkipRead`, `ExtraRead` and `ReenterUnread` are the ways to
    break that. A callback that polls enters the event loop again: when it is another
    endpoint's, this endpoint's turn in the outer loop comes after the nested pass
    (`ReenterBefore`).

    An ENABLE that finds a helper running with the bus not enabled starts another one
    over it (`older`). Both then share slot, buffers and eventfd. */
module LegacyOut {
  import opened Common

  datatype HelperPc =
    | Absent
    | EnterRead                     // calling read: a cancellation point
    | InRead(buf: nat)              // blocked in read into this read_data; 0 is NULL
    | WantLock(p: Packet)
    | TestSlot(p: Packet)
    | Copying(p: Packet, k: nat)
    | SetLength(p: Packet)
    | SetOccupied(p: Packet)
    | Unlocking
    | Notify                        // calling write(event_fd): a cancellation point
    | Finished

  datatype CorePc =
    | Idle
    | Polled(direct: bool)          // its turn in the loop, the record that came with poll handled
                                    // and the bus still enabled; direct: no nested pass since poll
    | Callback                      // notification read, firmware's callback running
    | ReadLock(cap: nat)
    | ReadTest(cap: nat)
    | ReadCopy(cap: nat, got: Packet)
    | ReadClear(got: Packet)
    | ReadUnlock
    | StopCancel
    | StopJoin
    | StopCloseEvent
    | StopFree
    | StopClear

  datatype Cause = NoCause | HostFailure | Overrun | ShortBuffer | BadNotification | NoEventfd | Overflow

  /** Where an outer pass waits for a nested one to end. */
  datatype Caller = BeforeRead | InCallback

  datatype History = History(fromHost: seq<Packet>, taken: seq<Packet>, lost: seq<Packet>)

  /** endpoint->read_data: which allocation it is, and its bytes until it is freed. */
  datatype Source = Source(serial: nat, data: Option<seq<byte>>)

  datatype State = State(
    status: Status,
    cause: Cause,                   // why the process died
    max: nat,
    enabled: bool,                  // usb_enabled
    helper: HelperPc,               // the thread that endpoint->thread names
    older: seq<HelperPc>,           // helpers it named before and that nobody joins
    core: CorePc,
    outer: seq<Caller>,             // the passes around this one, innermost last
    mutex: Owner,
    cancel: bool,
    slot: Slot,
    source: Source,
    event: Option<nat>,
    hist: History)

  datatype Action =
    | Start(garbage: seq<byte>, stale: seq<byte>)  // ENABLE: malloc returns arbitrary contents
    | Stop
    | Poll
    | Serve(cap: nat)               // the callback reads into a buffer of this size
    | SkipRead                      // the callback returns without reading
    | ExtraRead(cap: nat)           // firmware reads outside a callback
    | ReenterBefore                 // a callback served earlier in this pass polls
    | ReenterUnread                 // this endpoint's callback polls before it reads
    | Return                        // the nested pass is over
    | DropEnabled                   // disconnect, a failed IN write, a poll error
    | Reset                         // usbInit overwrites event_fd
    | CoreStep
    | HelperStep
    | HostPacket(p: Packet)
    | HostEnd
    | HostError
    | Interrupted
    | CancelActs
    | Overwritten(i: nat, act: Action)  // what an older helper does, or the kernel to it

  function Init(max: nat): State {
    State(Running, NoCause, max, false, Absent, [], Idle, [], Free, false, Slot(None, 0, false), Source(0, None), None,
          History([], [], []))
  }

  function Die(s: State, why: Cause): State {
    s.(status := Died, cause := why)
  }

  function AwaitSlot(s: State): State {
    match s.helper
    case EnterRead =>
      if s.cancel then s.(helper := Finished)
      else s.(helper := InRead(if s.source.data.None? then 0 else s.source.serial))
    case WantLock(p) => if s.mutex.Free? then s.(helper := TestSlot(p), mutex := Helper) else s
    case TestSlot(p) => if s.slot.occupied then Die(s, Overrun) else s.(helper := Copying(p, 0))
    case _ => s
  }

  function CopyIn(s: State): State {
    match s.helper
    case Copying(p, k) =>
      if k >= |p| then s.(helper := SetLength(p))
      else if s.slot.buffer.None? || k >= |s.slot.buffer.value| then s.(status := Fault)
      else if s.source.data.None? || k >= |s.source.data.value| then s.(status := Fault)
      else
        s.(helper := Copying(p, k + 1),
           slot := s.slot.(buffer := Some(s.slot.buffer.value[k := s.source.data.value[k]])))
    case SetLength(p) => s.(helper := SetOccupied(p), slot := s.slot.(length := |p| % 0x1_0000))
    case _ => s
  }

  function Publish(s: State): State {
    match s.helper
    case SetOccupied(_) => s.(helper := Unlocking, slot := s.slot.(occupied := true))
    case Unlocking => s.(helper := Notify, mutex := Free)
    case Notify =>
      if s.cancel then s.(helper := Finished)
      else if s.event.None? then Die(s, NoEventfd)
      else if s.event.value >= EVENTFD_MAX then Die(s, Overflow)
      else s.(helper := EnterRead, event := Some(s.event.value + 1))
    case _ => s
  }

  /** The event loop reading one completion. */
  function TakeNotification(s: State): State {
    if !s.core.Polled? then s
    else if s.event.None? || s.event.value != 1 then Die(s, BadNotification)
    else s.(core := Callback, event := Some(0))
  }

  /** virtual_ep_read_packet up to the end of its memcpy. */
  function TakePacket(s: State): State {
    match s.core
    case ReadLock(cap) => if s.mutex.Free? then s.(core := ReadTest(cap), mutex := Core) else s
    case ReadTest(cap) =>
      if !s.slot.occupied then s.(core := ReadUnlock)
      else if s.slot.length > cap then Die(s.(mutex := Free), ShortBuffer)
      else s.(core := ReadCopy(cap, []))
    case ReadCopy(cap, got) =>
      if |got| >= s.slot.length then s.(core := ReadClear(got))
      else if s.slot.buffer.None? || |got| >= |s.slot.buffer.value| then s.(status := Fault)
      else s.(core := ReadCopy(cap, got + [s.slot.buffer.value[|got|]]))
    case _ => s
  }

  function Consume(s: State): State {
    match s.core
    case ReadClear(got) =>
      s.(core := ReadUnlock, slot := s.slot.(occupied := false), hist := s.hist.(taken := s.hist.taken + [got]))
    case ReadUnlock => s.(core := Idle, mutex := Free)
    case _ => s
  }

  function StopThread(s: State): State {
    match s.core
    case StopCancel => s.(core := StopJoin, cancel := true)
    case StopJoin =>
      if s.helper.Finished? then s.(core := StopCloseEvent, helper := Absent, cancel := false) else s
    case _ => s
  }

  function TearDown(s: State): State {
    match s.core
    case StopCloseEvent => s.(core := StopFree, event := None)
    case StopFree =>
      s.(core := StopClear, slot := s.slot.(buffer := None), source := s.source.(data := None),
         hist := s.hist.(lost := InFlight(s.slot, s.helper) + s.hist.lost))
    case StopClear => s.(core := Idle, slot := s.slot.(length := 0, occupied := false))
    case _ => s
  }

  /** The outer pass goes on: to this endpoint, if the bus is still enabled, or with its
      callback. */
  function Resume(s: State): State
    requires s.outer != []
  {
    var n := |s.outer| - 1;
    var c := if s.outer[n].InCallback? then Callback else if s.enabled then Polled(false) else Idle;
    s.(core := c, outer := s.outer[..n])
  }

  function CoreBegins(s: State, a: Action): State {
    match a
    case Start(garbage, stale) =>
      if s.core.Idle? && !s.enabled && |garbage| == s.max == |stale| then
        s.(helper := EnterRead, older := if s.helper.Absent? then s.older else s.older + [s.helper],
           slot := Slot(Some(garbage), 0, false), source := Source(s.source.serial + 1, Some(stale)),
           event := Some(0), enabled := true, hist := History([], [], []))
      else s
    case Stop =>
      if s.core.Idle? then s.(core := if s.helper.Absent? then StopCloseEvent else StopCancel, enabled := false) else s
    case Poll =>
      if s.core.Idle? && s.enabled && s.event.Some? && s.event.value > 0 then s.(core := Polled(true)) else s
    case Serve(cap) => if s.core.Callback? then s.(core := if s.enabled then ReadLock(cap) else Idle) else s
    case SkipRead => if s.core.Callback? then s.(core := Idle) else s
    case ExtraRead(cap) => if s.core.Idle? && s.enabled && s.slot.buffer.Some? then s.(core := ReadLock(cap)) else s
    case ReenterBefore => if s.core.Polled? then s.(core := Idle, outer := s.outer + [BeforeRead]) else s
    case ReenterUnread => if s.core.Callback? then s.(core := Idle, outer := s.outer + [InCallback]) else s
    case Return => if s.core.Idle? && s.outer != [] then Resume(s) else s
    case DropEnabled => if s.core.Idle? then s.(enabled := false) else s
    case Reset => if s.core.Idle? then s.(event := None) else s
    case _ => s
  }

  /** read returns p: into the current read_data, into one that a later start leaked, into
      NULL, or into one that a stop has freed. */
  function Deliver(s: State, p: Packet): State
    requires s.helper.InRead?
  {
    var t := s.(helper := WantLock(p), hist := s.hist.(fromHost := s.hist.fromHost + [p]));
    if s.helper.buf == 0 then if p == [] then t else Die(s, HostFailure)
    else if s.helper.buf != s.source.serial then t
    else if s.source.data.None? || |s.source.data.value| < |p| then s.(status := Fault)
    else t.(source := s.source.(data := Some(p + s.source.data.value[|p|..])))
  }

  function KernelActs(s: State, a: Action): State {
    if !s.helper.InRead? then s
    else
      match a
      case HostPacket(p) => if |p| > s.max then s else Deliver(s, p)
      case HostEnd => s.(helper := Finished)
      case HostError => Die(s, HostFailure)
      case Interrupted => s.(helper := EnterRead)
      case CancelActs => if s.cancel then s.(helper := Finished) else s
      case _ => s
  }

  function HelperNext(s: State): State {
    match s.helper
    case Copying(_, _) => CopyIn(s)
    case SetLength(_) => CopyIn(s)
    case SetOccupied(_) => Publish(s)
    case Unlocking => Publish(s)
    case Notify => Publish(s)
    case _ => AwaitSlot(s)
  }

  function CoreNext(s: State): State {
    match s.core
    case Polled(_) => TakeNotification(s)
    case ReadClear(_) => Consume(s)
    case ReadUnlock => Consume(s)
    case StopCancel => StopThread(s)
    case StopJoin => StopThread(s)
    case StopCloseEvent => TearDown(s)
    case StopFree => TearDown(s)
    case StopClear => TearDown(s)
    case _ => TakePacket(s)
  }

  /** What the helper does, or the kernel to it. */
  function HelperActs(s: State, a: Action): State {
    if a.HelperStep? then HelperNext(s) else KernelActs(s, a)
  }

  /** An older helper takes the same steps on the same slot; nobody cancels it. */
  function OlderActs(s: State, i: nat, a: Action): State {
    if i >= |s.older| then s
    else
      var t := HelperActs(s.(helper := s.older[i], cancel := false), a);
      t.(helper := s.helper, cancel := s.cancel, older := s.older[i := t.helper])
  }

  predicate CoreAction(a: Action) {
    a.Start? || a.Stop? || a.Poll? || a.Serve? || a.SkipRead? || a.ExtraRead? || a.ReenterBefore? || a.ReenterUnread?
    || a.Return? || a.DropEnabled? || a.Reset?
  }

  function Step(s: State, a: Action): State {
    if !s.status.Running? then s
    else if a.HelperStep? then HelperNext(s)
    else if a.CoreStep? then CoreNext(s)
    else if CoreAction(a) then CoreBegins(s, a)
    else if a.Overwritten? then OlderActs(s, a.i, a.act)
    else KernelActs(s, a)
  }

  function Run(s: State, actions: seq<Action>): State
    decreases |actions|
  {
    if actions == [] then s else Run(Step(s, actions[0]), actions[1..])
  }

  predicate PoliteAction(a: Action) {
    !a.SkipRead? && !a.ExtraRead? && !a.ReenterUnread?
  }

  /** Firmware reads exactly one packet per callback, before it polls or does anything
      else, and none outside. */
  predicate Polite(actions: seq<Action>) {
    forall i :: 0 <= i < |actions| ==> PoliteAction(actions[i])
  }

  /** No callback enters the event loop again. */
  predicate NoReentry(actions: seq<Action>) {
    forall i :: 0 <= i < |actions| ==> !actions[i].ReenterBefore?
  }

  /** This is not an ENABLE that finds a helper running with the bus not enabled. */
  predicate Clean(s: State, a: Action) {
    a.Start? && s.status.Running? ==> s.enabled || s.helper.Absent?
  }

  /** No helper is started over another one. */
  predicate CleanRun(s: State, actions: seq<Action>)
    decreases |actions|
  {
    actions == [] || (Clean(s, actions[0]) && CleanRun(Step(s, actions[0]), actions[1..]))
  }

  // ---------------------------------------------------------------- invariant

  predicate HelperHolds(h: HelperPc) {
    h.TestSlot? || h.Copying? || h.SetLength? || h.SetOccupied? || h.Unlocking?
  }

  predicate CoreHolds(c: CorePc) {
    c.ReadTest? || c.ReadCopy? || c.ReadClear? || c.ReadUnlock?
  }

  predicate TearingDown(c: CorePc) {
    c.StopCloseEvent? || c.StopFree? || c.StopClear?
  }

  predicate Stopping(c: CorePc) {
    c.StopCancel? || c.StopJoin? || TearingDown(c)
  }

  predicate Carries(h: HelperPc) {
    h.WantLock? || h.TestSlot? || h.Copying? || h.SetLength? || h.SetOccupied?
  }

  /** The controller has read a notification whose packet firmware has not taken. */
  predicate Owing(c: CorePc) {
    c.Callback? || c.ReadLock? || c.ReadTest? || c.ReadCopy? || c.ReadClear?
  }

  function InFlight(slot: Slot, h: HelperPc): (q: seq<Packet>)
    ensures |q| <= 2
  {
    (if slot.occupied && slot.length <= |Bytes(slot)| && slot.buffer.Some? then [Bytes(slot)[..slot.length]] else [])
    + (if Carries(h) then [h.p] else [])
  }

  predicate LockInv(mutex: Owner, h: HelperPc, c: CorePc) {
    && (mutex.Helper? <==> HelperHolds(h))
    && (mutex.Core? <==> CoreHolds(c))
  }

  predicate LiveInv(h: HelperPc, c: CorePc, slot: Slot, event: Option<nat>, max: nat) {
    && max < 0x1_0000
    && (slot.buffer.Some? ==> |slot.buffer.value| == max)
    && (!h.Absent? ==> slot.buffer.Some?)
    && (TearingDown(c) ==> h.Absent?)
    && (c.StopFree? || c.StopClear? ==> event.None?)
    && (c.StopClear? ==> slot.buffer.None?)
    && (h.Absent? && !TearingDown(c) ==> slot.buffer.None? && !slot.occupied && event.None?)
    && (slot.occupied && !c.StopClear? ==> slot.buffer.Some? && slot.length <= max)
  }

  predicate CancelInv(h: HelperPc, c: CorePc, cancel: bool) {
    && (cancel <==> c.StopJoin?)
    && (c.StopCancel? || c.StopJoin? || c.Polled? || Owing(c) ==> !h.Absent?)
  }

  predicate HelperInv(h: HelperPc, slot: Slot, max: nat) {
    && (Carries(h) ==> |h.p| <= max)
    && (h.Copying? || h.SetLength? || h.SetOccupied? ==> !slot.occupied)
    && (h.Copying? ==> h.k <= |h.p| && h.k <= |Bytes(slot)| && Bytes(slot)[..h.k] == h.p[..h.k])
    && (h.SetLength? || h.SetOccupied? ==> |h.p| <= |Bytes(slot)| && Bytes(slot)[..|h.p|] == h.p)
    && (h.SetOccupied? ==> slot.length == |h.p|)
  }

  /** What the helper has read, or will, is in the read_data it will copy from. */
  predicate SourceInv(h: HelperPc, source: Source, max: nat) {
    && (source.data.Some? ==> |source.data.value| == max && source.serial > 0)
    && (!h.Absent? ==> source.data.Some?)
    && (h.InRead? ==> h.buf == source.serial)
    && (Carries(h) && source.data.Some? && |h.p| <= max ==> source.data.value[..|h.p|] == h.p)
  }

  predicate CoreInv(c: CorePc, slot: Slot) {
    && (c.ReadCopy? || c.ReadClear? ==> slot.occupied && slot.length <= |Bytes(slot)|)
    && (c.ReadCopy? ==> |c.got| <= slot.length && c.got == Bytes(slot)[..|c.got|])
    && (c.ReadClear? ==> c.got == Bytes(slot)[..slot.length])
  }

  predicate QueueInv(hist: History, inFlight: seq<Packet>) {
    hist.fromHost == hist.taken + inFlight + hist.lost && |inFlight| + |hist.lost| <= 2
  }

  predicate LossInv(lost: seq<Packet>, h: HelperPc) {
    lost != [] ==> h.Absent?
  }

  /** Notifications about to be written, pending, or read but not yet served. */
  function Owed(h: HelperPc, c: CorePc, event: nat): nat {
    (if h.Unlocking? || h.Notify? then 1 else 0) + event + (if Owing(c) then 1 else 0)
  }

  /** The handoff ledger: a full slot has exactly one notification on its way to
      firmware and an empty one none; a stop may lose that notification. */
  predicate LedgerInv(h: HelperPc, c: CorePc, occupied: bool, event: Option<nat>) {
    && (event.None? ==> !Owing(c) && !(c.Polled? && c.direct))
    && (event.Some? ==>
      && Owed(h, c, event.value) <= (if occupied then 1 else 0)
      && (!Stopping(c) ==> Owed(h, c, event.value) == if occupied then 1 else 0)
      && (c.Polled? && c.direct ==> event.value == 1))
  }

  /** The bus is enabled only over a helper, and it is while a turn or a callback lasts;
      no outer pass waits inside this endpoint's own callback. */
  predicate LoopInv(h: HelperPc, c: CorePc, enabled: bool, outer: seq<Caller>) {
    && (enabled ==> !h.Absent? && !Stopping(c))
    && (c.Polled? || c.Callback? ==> enabled)
    && InCallback !in outer
  }

  predicate Inv(s: State) {
    && !s.status.Fault? && !s.cause.Overflow? && (s.status.Running? ==> s.cause.NoCause?)
    && LockInv(s.mutex, s.helper, s.core)
    && LiveInv(s.helper, s.core, s.slot, s.event, s.max)
    && CancelInv(s.helper, s.core, s.cancel)
    && s.older == [] && SourceInv(s.helper, s.source, s.max)
    && HelperInv(s.helper, s.slot, s.max)
    && CoreInv(s.core, s.slot)
    && QueueInv(s.hist, InFlight(s.slot, s.helper))
    && LossInv(s.hist.lost, s.helper)
    && LedgerInv(s.helper, s.core, s.slot.occupied, s.event)
    && LoopInv(s.helper, s.core, s.enabled, s.outer)
  }

  lemma AwaitSlotKeepsInv(s: State)
    requires Inv(s)
    ensures Inv(AwaitSlot(s)) || AwaitSlot(s) == Die(s, Overrun)
  {}

  lemma CopyInKeepsInv(s: State)
    requires Inv(s)
    ensures Inv(CopyIn(s))
  {
    if s.helper.Copying? && s.helper.k < |s.helper.p| {
      var p, k := s.helper.p, s.helper.k;
      assert s.source.data.value[k] == p[k] by {
        assert s.source.data.value[..|p|][k] == p[k];
      }
      CopyOneMore(Bytes(s.slot), p, k);
      assert CopyIn(s).slot.buffer == Some(Bytes(s.slot)[k := p[k]]);
    }
  }

  lemma PublishKeepsInv(s: State)
    requires Inv(s)
    ensures Inv(Publish(s)) || (s.helper.Notify? && !s.cancel && s.event.None? && Publish(s) == Die(s, NoEventfd))
  {}

  lemma TakeNotificationKeepsInv(s: State)
    requires Inv(s)
    ensures Inv(TakeNotification(s))
         || (s.core.Polled? && s.event != Some(1) && TakeNotification(s) == Die(s, BadNotification))
  {}

  lemma TakePacketKeepsInv(s: State)
    requires Inv(s)
    ensures Inv(TakePacket(s)) || TakePacket(s) == Die(s.(mutex := Free), ShortBuffer)
  {
    if s.core.ReadCopy? && |s.core.got| < s.slot.length {
      assert TakePacket(s).core.got == Bytes(s.slot)[..|s.core.got| + 1];
    }
  }

  lemma ConsumeKeepsInv(s: State)
    requires Inv(s)
    ensures Inv(Consume(s))
  {
    if s.core.ReadClear? {
      var q := InFlight(s.slot, s.helper);
      assert q == [s.core.got] + InFlight(Consume(s).slot, s.helper);
    }
  }

  lemma StopThreadKeepsInv(s: State)
    requires Inv(s)
    ensures Inv(StopThread(s))
  {}

  lemma TearDownKeepsInv(s: State)
    requires Inv(s)
    ensures Inv(TearDown(s))
  {
    match s.core
    case StopCloseEvent =>
    case StopFree =>
    case StopClear =>
    case _ =>
  }

  lemma CoreBeginsKeepsInv(s: State, a: Action)
    requires Inv(s) && s.status.Running? && PoliteAction(a) && Clean(s, a)
    ensures Inv(CoreBegins(s, a))
  {
    if a.Start? {
      StartKeepsInv(s, a);
    }
  }

  lemma StartKeepsInv(s: State, a: Action)
    requires Inv(s) && s.status.Running? && a.Start? && Clean(s, a)
    ensures Inv(CoreBegins(s, a))
  {}

  lemma ArrivalKeepsInv(s: State, p: Packet)
    requires Inv(s) && s.helper.InRead? && |p| <= s.max
    ensures Inv(Deliver(s, p))
  {
    assert s.hist.lost == [];
    var data := s.source.data.value;
    assert (p + data[|p|..])[..|p|] == p;
  }

  lemma KernelActsKeepsInv(s: State, a: Action)
    requires Inv(s)
    ensures Inv(KernelActs(s, a))
  {
    if a.HostPacket? && s.helper.InRead? && |a.p| <= s.max {
      ArrivalKeepsInv(s, a.p);
    }
  }

  lemma HelperNextKeepsInv(s: State)
    requires Inv(s)
    ensures var t := HelperNext(s);
      || Inv(t)
      || (s.helper.TestSlot? && s.slot.occupied && t == Die(s, Overrun))
      || (s.helper.Notify? && !s.cancel && s.event.None? && t == Die(s, NoEventfd))
  {
    if s.helper.Copying? || s.helper.SetLength? {
      CopyInKeepsInv(s);
    } else if s.helper.SetOccupied? || s.helper.Unlocking? || s.helper.Notify? {
      PublishKeepsInv(s);
    } else {
      AwaitSlotKeepsInv(s);
    }
  }

  lemma CoreNextKeepsInv(s: State)
    requires Inv(s)
    ensures var t := CoreNext(s);
      || Inv(t)
      || (s.core.ReadTest? && s.slot.length > s.core.cap && t == Die(s.(mutex := Free), ShortBuffer))
      || (s.core.Polled? && s.event != Some(1) && t == Die(s, BadNotification))
  {
    if s.core.Polled? {
      TakeNotificationKeepsInv(s);
    } else if s.core.ReadClear? || s.core.ReadUnlock? {
      ConsumeKeepsInv(s);
    } else if s.core.StopCancel? || s.core.StopJoin? {
      StopThreadKeepsInv(s);
    } else if TearingDown(s.core) {
      TearDownKeepsInv(s);
    } else {
      TakePacketKeepsInv(s);
    }
  }

  lemma StepKeepsInv(s: State, a: Action)
    requires Inv(s) && s.status.Running? && PoliteAction(a) && Clean(s, a)
    ensures var t := Step(s, a);
      || Inv(t)
      || (a.HelperStep? && s.helper.TestSlot? && s.slot.occupied && t == Die(s, Overrun))
      || (a.CoreStep? && s.core.ReadTest? && s.slot.length > s.core.cap && t == Die(s.(mutex := Free), ShortBuffer))
      || (a.CoreStep? && s.core.Polled? && s.event != Some(1) && t == Die(s, BadNotification))
      || (a.HelperStep? && s.helper.Notify? && !s.cancel && s.event.None? && t == Die(s, NoEventfd))
  {
    if a.HelperStep? {
      HelperNextKeepsInv(s);
    } else if a.CoreStep? {
      CoreNextKeepsInv(s);
    } else if CoreAction(a) {
      CoreBeginsKeepsInv(s, a);
    } else {
      KernelActsKeepsInv(s, a);
    }
  }

  // ----------------------------------------------------------------- main results

  lemma {:induction false} DeadStaysDead(s: State, actions: seq<Action>)
    requires !s.status.Running?
    ensures Run(s, actions) == s
    decreases |actions|
  {
    if actions != [] {
      DeadStaysDead(s, actions[1..]);
    }
  }

  /** What a polite run may look like: alive and in order, or dead for one of the
      reasons the code has, with firmware's packets still a prefix. */
  predicate Sound(s: State) {
    if s.status.Running? then Inv(s)
    else s.status.Died? && !s.cause.NoCause? && !s.cause.Overflow? && s.hist.taken <= s.hist.fromHost
  }

  /** The event loop has not been entered again. */
  predicate Direct(s: State) {
    s.outer == [] && (s.core.Polled? ==> s.core.direct) && !s.cause.BadNotification?
  }

  lemma StepKeepsSound(s: State, a: Action)
    requires Inv(s) && s.status.Running? && PoliteAction(a) && Clean(s, a)
    ensures Sound(Step(s, a))
  {
    StepKeepsInv(s, a);
    DiesExactlyWhen(s, a);
    assert s.hist.taken <= s.hist.fromHost;
  }

  lemma {:induction false} RunKeepsSound(s: State, actions: seq<Action>)
    requires Sound(s) && Polite(actions) && CleanRun(s, actions)
    ensures Sound(Run(s, actions))
    decreases |actions|
  {
    if actions != [] {
      if s.status.Running? {
        StepKeepsSound(s, actions[0]);
        RunKeepsSound(Step(s, actions[0]), actions[1..]);
      } else {
        DeadStaysDead(s, actions);
      }
    }
  }

  lemma StepStaysDirect(s: State, a: Action)
    requires Inv(s) && s.status.Running? && Direct(s) && PoliteAction(a) && !a.ReenterBefore?
    ensures Direct(Step(s, a))
  {
    if a.CoreStep? {
      assert s.core.Polled? ==> s.event == Some(1);
    } else if CoreAction(a) {
      BeginsDirect(s, a);
    }
  }

  lemma BeginsDirect(s: State, a: Action)
    requires Direct(s) && PoliteAction(a) && !a.ReenterBefore?
    ensures Direct(CoreBegins(s, a))
  {}

  lemma {:induction false} RunStaysDirect(s: State, actions: seq<Action>)
    requires Sound(s) && Direct(s) && Polite(actions) && NoReentry(actions) && CleanRun(s, actions)
    ensures Direct(Run(s, actions))
    decreases |actions|
  {
    if actions != [] {
      if s.status.Running? {
        StepKeepsSound(s, actions[0]);
        StepStaysDirect(s, actions[0]);
        RunStaysDirect(Step(s, actions[0]), actions[1..]);
      } else {
        DeadStaysDead(s, actions);
      }
    }
  }

  /** The only ways to die while firmware is polite: the host completes a transfer
      before the last one was taken, firmware's buffer is too short, FunctionFS fails, or
      the endpoint's turn comes when its eventfd is empty. The last takes a nested pass:
      straight after poll the eventfd holds 1. */
  lemma DiesExactlyWhen(s: State, a: Action)
    requires Inv(s) && s.status.Running? && PoliteAction(a)
    ensures var t := Step(s, a);
      && (t.status.Died? <==>
           || (a.HelperStep? && s.helper.TestSlot? && s.slot.occupied)
           || (a.CoreStep? && s.core.ReadTest? && s.slot.length > s.core.cap)
           || (a.HostError? && s.helper.InRead?)
           || (a.CoreStep? && s.core.Polled? && s.event != Some(1))
           || (a.HelperStep? && s.helper.Notify? && !s.cancel && s.event.None?))
      && (s.core.Polled? && s.core.direct ==> s.event == Some(1))
      && (t.status.Died? ==> !t.cause.NoCause? && !t.cause.Overflow? && t.hist == s.hist)
  {
    if a.HelperStep? {
      assert s.helper.Notify? && s.event.Some? ==> s.event.value == 0;
    } else if a.CoreStep? {
      assert s.core.ReadTest? ==> s.slot.occupied;
      assert s.core.Polled? && s.event.Some? ==> s.event.value <= 1;
    }
  }

  /** Over every polite run of one endpoint, nested passes included: at most one
      notification is ever pending; outside a stop the slot is full exactly while its
      notification is about to be written, pending, or read but unserved; and what
      firmware took is, in order and uncut, what the host sent, except for at most two
      packets still in flight or dropped by a stop. Unless a callback enters the loop
      again, every eventfd read returns exactly 1. */
  lemma PoliteHandoff(max: nat, actions: seq<Action>)
    requires max < 0x1_0000 && Polite(actions) && CleanRun(Init(max), actions)
    ensures var s := Run(Init(max), actions);
      && !s.status.Fault? && (NoReentry(actions) ==> !s.cause.BadNotification?)
      && s.hist.taken <= s.hist.fromHost
      && (s.status.Running? ==>
            && |s.hist.fromHost| <= |s.hist.taken| + 2
            && s.hist.fromHost == s.hist.taken + InFlight(s.slot, s.helper) + s.hist.lost
            && (s.event.Some? ==> s.event.value <= 1)
            && (s.event.Some? && !Stopping(s.core) ==>
                  Owed(s.helper, s.core, s.event.value) == if s.slot.occupied then 1 else 0)
            && (s.hist.lost != [] ==> s.helper.Absent?))
  {
    RunKeepsSound(Init(max), actions);
    if NoReentry(actions) {
      RunStaysDirect(Init(max), actions);
    }
  }
}
