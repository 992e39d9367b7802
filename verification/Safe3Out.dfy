/** The Safe 3 OUT endpoint: `out_thread_main`, `iface_read`, `iface_read_ready`,
    the event drain of `service_controller` and start/stop of the helper, at the
    granularity of one shared-memory access or system call per step.

    `Step` is total: an action that is not possible in a state leaves it alone, so
    a statement about `Run(s, actions)` for every `actions` is a statement about
    every interleaving, every cancellation point and every host behaviour. */
module Safe3Out {
  import opened Common

  datatype HelperPc =
    | Absent                        // never created, or joined
    | EnterRead                     // calling read: a cancellation point
    | InRead                        // blocked inside read
    | WantLock(p: Packet)           // read_buffer holds p
    | TestSlot(p: Packet)           // holds the mutex
    | Asleep(p: Packet)             // in pthread_cond_wait, mutex released
    | Woken(p: Packet)              // in pthread_cond_wait, re-acquiring
    | Copying(p: Packet, k: nat)    // memcpy has stored k bytes
    | SetLength(p: Packet)
    | SetOccupied(p: Packet)
    | Unlocking
    | Notify                        // calling write(event_fd): a cancellation point
    | CancelRelock                  // cancelled inside pthread_cond_wait
    | CancelUnlock                  // running the cleanup handler
    | Finished                      // returned or cancelled, not joined yet

  datatype CorePc =
    | Idle
    | ReadLock(cap: nat)
    | ReadTest(cap: nat)
    | ReadCopy(cap: nat, got: Packet)
    | ReadClear(cap: nat, got: Packet)
    | ReadClearLength
    | ReadSignal
    | ReadUnlock
    | PeekLock
    | PeekTest
    | PeekUnlock(ready: bool)       // iface_read_ready has its answer
    | Polled                        // poll reported the eventfd readable
    | Drained                       // eventfd read, interface not signalled yet
    | Stale                         // as Polled, but a stop came after the poll
    | StopCancel(late: bool)        // late: it began between poll and drain
    | StopJoin(late: bool)
    | StopCloseEvent(late: bool)
    | StopFree(late: bool)
    | StopClear(late: bool)

  /** One successful `iface_read`: the bytes it returned and the caller's size. */
  datatype Delivery = Delivery(data: Packet, cap: nat)

  /** What has passed through the current activation. */
  datatype History = History(
    fromHost: seq<Packet>,        // packets read from FunctionFS
    taken: seq<Delivery>,         // what iface_read returned
    lost: seq<Packet>)            // what a stop threw away

  datatype State = State(
    status: Status,
    max: nat,                     // max_packet_size
    bound: bool,                  // interface n-1 exists
    helper: HelperPc,
    core: CorePc,
    mutex: Owner,
    cancel: bool,                 // pthread_cancel called, thread not joined
    slot: Slot,
    event: Option<nat>,           // the eventfd counter, None once closed
    hist: History,
    announced: bool)              // Core signalled since the last publication

  datatype Action =
    | Start(garbage: seq<byte>)   // enable: malloc returns arbitrary contents
    | Stop
    | CallRead(cap: nat)
    | CallReady
    | Poll
    | EarlyReturn                 // the pass ejects or inserts instead of draining
    | Reset                       // usb_init overwrites event_fd
    | CoreStep
    | HelperStep
    | HostPacket(p: Packet)       // read returns |p| bytes
    | HostEnd                     // read fails because the generation ended
    | HostError                   // read fails otherwise
    | Interrupted                 // read fails with EINTR
    | SpuriousWake
    | CancelActs                  // cancellation interrupts a blocking call

  function Init(max: nat, bound: bool): State {
    State(Running, max, bound, Absent, Idle, Free, false, Slot(None, 0, false), None, History([], [], []), true)
  }

  /** The state `start_endpoint_threads` leaves behind, whatever came before. */
  function Fresh(max: nat, bound: bool, garbage: seq<byte>): State {
    State(Running, max, bound, EnterRead, Idle, Free, false, Slot(Some(garbage), 0, false), Some(0),
          History([], [], []), true)
  }

  /** out_thread_main up to the decision that the slot is free. */
  function AwaitSlot(s: State): State {
    match s.helper
    case WantLock(p) => if s.mutex.Free? then s.(helper := TestSlot(p), mutex := Helper) else s
    case TestSlot(p) =>
      if !s.slot.occupied then s.(helper := Copying(p, 0))
      else if s.cancel then s.(helper := CancelUnlock, hist := s.hist.(lost := [p]))
      else s.(helper := Asleep(p), mutex := Free)
    case Woken(p) => if s.mutex.Free? then s.(helper := TestSlot(p), mutex := Helper) else s
    case _ => s
  }

  /** Entering read and write(event_fd), where a pending cancellation is honoured. */
  function CancellationPoint(s: State): State {
    match s.helper
    case EnterRead => if s.cancel then s.(helper := Finished) else s.(helper := InRead)
    case Notify =>
      if s.cancel then s.(helper := Finished)
      else if s.event.None? || s.event.value >= EVENTFD_MAX then s.(status := Died)
      else s.(helper := EnterRead, event := Some(s.event.value + 1))
    case _ => s
  }

  /** The cleanup handler of a helper cancelled inside pthread_cond_wait. */
  function Unwind(s: State): State {
    match s.helper
    case CancelRelock => if s.mutex.Free? then s.(helper := CancelUnlock, mutex := Helper) else s
    case CancelUnlock => s.(helper := Finished, mutex := Free)
    case _ => s
  }

  /** The memcpy of out_thread_main, one byte per step. */
  function CopyIn(s: State): State {
    match s.helper
    case Copying(p, k) =>
      if k >= |p| then s.(helper := SetLength(p))
      else if s.slot.buffer.None? || k >= |s.slot.buffer.value| then s.(status := Fault)
      else s.(helper := Copying(p, k + 1), slot := s.slot.(buffer := Some(s.slot.buffer.value[k := p[k]])))
    case _ => s
  }

  /** out_thread_main filling in packet_length and occupied. */
  function Publish(s: State): State {
    match s.helper
    case SetLength(p) => s.(helper := SetOccupied(p), slot := s.slot.(length := |p| % 0x1_0000))
    case SetOccupied(p) => s.(helper := Unlocking, slot := s.slot.(occupied := true), announced := false)
    case _ => s
  }

  function Release(s: State): State {
    match s.helper
    case Unlocking => s.(helper := Notify, mutex := Free)
    case _ => s
  }

  /** iface_read up to the end of its memcpy. */
  function TakePacket(s: State): State {
    match s.core
    case ReadLock(cap) => if s.mutex.Free? then s.(core := ReadTest(cap), mutex := Core) else s
    case ReadTest(cap) => if s.slot.occupied then s.(core := ReadCopy(cap, [])) else s.(core := ReadUnlock)
    case ReadCopy(cap, got) =>
      if |got| >= Min(s.slot.length, cap) then s.(core := ReadClear(cap, got))
      else if s.slot.buffer.None? || |got| >= |s.slot.buffer.value| then s.(status := Fault)
      else s.(core := ReadCopy(cap, got + [s.slot.buffer.value[|got|]]))
    case _ => s
  }

  /** iface_read clearing `occupied`: the packet now belongs to the caller. */
  function Consume(s: State): State {
    match s.core
    case ReadClear(cap, got) =>
      s.(core := ReadClearLength, slot := s.slot.(occupied := false),
         hist := s.hist.(taken := s.hist.taken + [Delivery(got, cap)]))
    case _ => s
  }

  /** iface_read from packet_length to its return. */
  function ReleaseSlot(s: State): State {
    match s.core
    case ReadClearLength => s.(core := ReadSignal, slot := s.slot.(length := 0))
    case ReadSignal =>
      s.(core := ReadUnlock, helper := if s.helper.Asleep? then Woken(s.helper.p) else s.helper)
    case ReadUnlock => s.(core := Idle, mutex := Free)
    case _ => s
  }

  /** iface_read_ready, and the drain loop of service_controller. */
  function PeekAndDrain(s: State): State {
    match s.core
    case PeekLock => if s.mutex.Free? then s.(core := PeekTest, mutex := Core) else s
    case PeekTest => s.(core := PeekUnlock(s.slot.occupied))
    case PeekUnlock(_) => s.(core := Idle, mutex := Free)
    case Polled =>
      if s.event.None? then s.(status := Fault)
      else if s.event.value == 0 then s.(status := Died)
      else s.(core := Drained, event := Some(0))
    case Drained => s.(core := Idle, announced := s.announced || s.bound)
    case Stale => s.(status := Died)
    case _ => s
  }

  /** stop_endpoint_threads for this endpoint: cancel and join. */
  function StopThread(s: State): State {
    match s.core
    case StopCancel(late) => s.(core := StopJoin(late), cancel := true)
    case StopJoin(late) =>
      if s.helper.Finished? then s.(core := StopCloseEvent(late), helper := Absent, cancel := false) else s
    case _ => s
  }

  /** stop_endpoint_threads for this endpoint: release what the helper used. */
  function TearDown(s: State): State {
    match s.core
    case StopCloseEvent(late) => s.(core := StopFree(late), event := None)
    case StopFree(late) => s.(core := StopClear(late), slot := s.slot.(buffer := None),
         hist := s.hist.(lost := InFlight(s.slot, s.helper) + s.hist.lost))
    case StopClear(late) =>
      s.(core := if late then Stale else Idle, slot := s.slot.(length := 0, occupied := false))
    case _ => s
  }

  /** usb_init has overwritten event_fd under the helper: every later write to it fails. */
  predicate Forgotten(s: State) {
    s.event.None? && !s.helper.Absent?
  }

  /** What Core begins while it is between operations. */
  function CoreBegins(s: State, a: Action): State {
    match a
    case Start(garbage) =>
      if s.core.Idle? && s.helper.Absent? && |garbage| == s.max then
        s.(helper := EnterRead, slot := s.slot.(buffer := Some(garbage)), event := Some(0),
           hist := History([], [], []), announced := true)
      else s
    case Stop =>
      if s.core.Idle? || s.core.Polled? then
        s.(core := if s.helper.Absent? then StopCloseEvent(s.core.Polled?) else StopCancel(s.core.Polled?))
      else s
    case CallRead(cap) => if s.core.Idle? then s.(core := ReadLock(cap)) else s
    case CallReady => if s.core.Idle? then s.(core := PeekLock) else s
    case Poll => if s.core.Idle? && s.event.Some? && s.event.value > 0 then s.(core := Polled) else s
    case EarlyReturn => if s.core.Polled? || s.core.Stale? then s.(core := Idle) else s
    case Reset => if s.core.Idle? then s.(event := None) else s
    case _ => s
  }

  /** What the kernel does to the helper: results of read, wake-ups, cancellation. */
  function KernelActs(s: State, a: Action): State {
    match a
    case HostPacket(p) =>
      if s.helper.InRead? && |p| <= s.max then
        (if s.slot.buffer.None? then s.(status := Fault)
         else s.(helper := WantLock(p), hist := s.hist.(fromHost := s.hist.fromHost + [p])))
      else s
    case HostEnd => if s.helper.InRead? then s.(helper := Finished) else s
    case HostError => if s.helper.InRead? then s.(status := Died) else s
    case Interrupted => if s.helper.InRead? then s.(helper := EnterRead) else s
    case SpuriousWake => if s.helper.Asleep? then s.(helper := Woken(s.helper.p)) else s
    case CancelActs =>
      if !s.cancel then s
      else if s.helper.InRead? then s.(helper := Finished)
      else if s.helper.Asleep? || s.helper.Woken? then s.(helper := CancelRelock, hist := s.hist.(lost := [s.helper.p]))
      else s
    case _ => s
  }

  function HelperNext(s: State): State {
    match s.helper
    case WantLock(_) => AwaitSlot(s)
    case TestSlot(_) => AwaitSlot(s)
    case Woken(_) => AwaitSlot(s)
    case Copying(_, _) => CopyIn(s)
    case SetLength(_) => Publish(s)
    case SetOccupied(_) => Publish(s)
    case Unlocking => Release(s)
    case CancelRelock => Unwind(s)
    case CancelUnlock => Unwind(s)
    case _ => CancellationPoint(s)
  }

  function CoreNext(s: State): State {
    match s.core
    case ReadLock(_) => TakePacket(s)
    case ReadTest(_) => TakePacket(s)
    case ReadCopy(_, _) => TakePacket(s)
    case ReadClear(_, _) => Consume(s)
    case ReadClearLength => ReleaseSlot(s)
    case ReadSignal => ReleaseSlot(s)
    case ReadUnlock => ReleaseSlot(s)
    case StopCancel(_) => StopThread(s)
    case StopJoin(_) => StopThread(s)
    case StopCloseEvent(_) => TearDown(s)
    case StopFree(_) => TearDown(s)
    case StopClear(_) => TearDown(s)
    case _ => PeekAndDrain(s)
  }

  function Step(s: State, a: Action): State {
    if !s.status.Running? then s
    else if a.HelperStep? then HelperNext(s)
    else if a.CoreStep? then CoreNext(s)
    else if a.Start? || a.Stop? || a.CallRead? || a.CallReady? || a.Poll? || a.EarlyReturn? || a.Reset? then
      CoreBegins(s, a)
    else KernelActs(s, a)
  }

  function Run(s: State, actions: seq<Action>): State
    decreases |actions|
  {
    if actions == [] then s else Run(Step(s, actions[0]), actions[1..])
  }

  // ---------------------------------------------------------------- invariant

  predicate HelperHolds(h: HelperPc) {
    h.TestSlot? || h.Copying? || h.SetLength? || h.SetOccupied? || h.Unlocking? || h.CancelUnlock?
  }

  predicate CoreHolds(c: CorePc) {
    c.ReadTest? || c.ReadCopy? || c.ReadClear? || c.ReadClearLength? || c.ReadSignal? || c.ReadUnlock?
    || c.PeekTest? || c.PeekUnlock?
  }

  /** Core is past the join and is taking the endpoint down. */
  predicate TearingDown(c: CorePc) {
    c.StopCloseEvent? || c.StopFree? || c.StopClear?
  }

  predicate Stopping(c: CorePc) {
    c.StopCancel? || c.StopJoin? || TearingDown(c)
  }

  predicate Carries(h: HelperPc) {
    h.WantLock? || h.TestSlot? || h.Asleep? || h.Woken? || h.Copying? || h.SetLength? || h.SetOccupied?
  }

  /** The packets between FunctionFS and Core, oldest first: slot, then read buffer. */
  function InFlight(slot: Slot, h: HelperPc): (q: seq<Packet>)
    ensures |q| <= 2
  {
    (if slot.occupied && slot.length <= |Bytes(slot)| && slot.buffer.Some? then [Bytes(slot)[..slot.length]] else [])
    + (if Carries(h) then [h.p] else [])
  }

  predicate LockInv(mutex: Owner, h: HelperPc, c: CorePc) {
    && (mutex.Helper? <==> HelperHolds(h))
    && (mutex.Core? <==> CoreHolds(c))
  }

  /** Buffers and eventfd live exactly as long as somebody may touch them. */
  predicate LiveInv(h: HelperPc, c: CorePc, slot: Slot, event: Option<nat>, max: nat) {
    && max < 0x1_0000
    && (slot.buffer.Some? ==> |slot.buffer.value| == max)
    && (!h.Absent? ==> slot.buffer.Some?)
    && (TearingDown(c) ==> h.Absent?)
    && (c.StopFree? || c.StopClear? ==> event.None?)
    && (c.StopClear? ==> slot.buffer.None?)
    && (h.Absent? && !TearingDown(c) ==> slot == Slot(None, 0, false) && event.None?)
    && (slot.occupied && !c.StopClear? ==> slot.buffer.Some? && slot.length <= max)
    && (c.Polled? ==> event.Some? && event.value > 0)
    && (c.Drained? ==> event.Some?)
    && (c.Stale? ==> h.Absent?)
  }

  predicate CancelInv(h: HelperPc, c: CorePc, cancel: bool) {
    && (cancel <==> c.StopJoin?)
    && (c.StopCancel? || c.StopJoin? ==> !h.Absent?)
    && (h.CancelRelock? || h.CancelUnlock? ==> cancel)
  }

  /** What the helper's program counter says about the slot. */
  predicate HelperInv(h: HelperPc, slot: Slot, max: nat) {
    && (Carries(h) ==> |h.p| <= max)
    && (h.Copying? || h.SetLength? || h.SetOccupied? ==> !slot.occupied)
    && (h.Copying? ==> h.k <= |h.p| && h.k <= |Bytes(slot)| && Bytes(slot)[..h.k] == h.p[..h.k])
    && (h.SetLength? || h.SetOccupied? ==> |h.p| <= |Bytes(slot)| && Bytes(slot)[..|h.p|] == h.p)
    && (h.SetOccupied? ==> slot.length == |h.p|)
  }

  /** What Core's program counter says about the slot. */
  predicate CoreInv(c: CorePc, slot: Slot) {
    && (c.ReadCopy? || c.ReadClear? ==> slot.occupied && slot.length <= |Bytes(slot)|)
    && (c.ReadCopy? ==> |c.got| <= Min(slot.length, c.cap) && c.got == Bytes(slot)[..|c.got|])
    && (c.ReadClear? ==> c.got == Bytes(slot)[..Min(slot.length, c.cap)])
    && (c.ReadClearLength? || c.ReadSignal? ==> !slot.occupied)
    && (c.PeekUnlock? && c.ready ==> slot.occupied)
  }

  /** Everything read from the host is taken, in flight or lost, in that order. */
  predicate QueueInv(hist: History, inFlight: seq<Packet>) {
    && |hist.taken| <= |hist.fromHost|
    && (forall i :: 0 <= i < |hist.taken| ==> hist.taken[i].data == Cut(hist.fromHost[i], hist.taken[i].cap))
    && hist.fromHost[|hist.taken|..] == inFlight + hist.lost
    && |hist.fromHost| - |hist.taken| <= 2
  }

  /** Only a stop loses packets. */
  predicate LossInv(lost: seq<Packet>, h: HelperPc, cancel: bool) {
    lost != [] ==> h.Absent? || (cancel && (h.CancelRelock? || h.CancelUnlock? || h.Finished?))
  }

  /** A sleeping helper has a reason to sleep, or its wake-up is on the way. */
  predicate WakeInv(h: HelperPc, c: CorePc, occupied: bool) {
    h.Asleep? ==> occupied || c.ReadClearLength? || c.ReadSignal?
  }

  /** A published packet whose activation is not being stopped is announced, or
      somebody who will announce it is on the way. */
  predicate AnnounceInv(s: State) {
    s.slot.occupied && s.bound && !Stopping(s.core) ==>
      || s.announced
      || (s.event.Some? && s.event.value > 0)
      || s.helper.Unlocking? || s.helper.Notify?
      || s.core.Drained?
      || Forgotten(s)
  }

  predicate Inv(s: State) {
    && !s.status.Fault?
    && LockInv(s.mutex, s.helper, s.core)
    && LiveInv(s.helper, s.core, s.slot, s.event, s.max)
    && CancelInv(s.helper, s.core, s.cancel)
    && HelperInv(s.helper, s.slot, s.max)
    && CoreInv(s.core, s.slot)
    && QueueInv(s.hist, InFlight(s.slot, s.helper))
    && LossInv(s.hist.lost, s.helper, s.cancel)
    && WakeInv(s.helper, s.core, s.slot.occupied)
    && AnnounceInv(s)
  }

  lemma DropOneMore(a: seq<Packet>, n: nat, q: seq<Packet>, lost: seq<Packet>)
    requires n <= |a| && a[n..] == q + lost && q != []
    ensures n < |a| && a[n] == q[0] && a[n + 1..] == q[1..] + lost
  {
    var rest := a[n..];
    assert a[n] == rest[0] && rest[0] == q[0];
    assert a[n + 1..] == rest[1..];
    assert (q + lost)[1..] == q[1..] + lost;
  }

  lemma TakeHead(hist: History, q: seq<Packet>, cap: nat)
    requires QueueInv(hist, q) && q != []
    ensures QueueInv(hist.(taken := hist.taken + [Delivery(Cut(q[0], cap), cap)]), q[1..])
  {
    DropOneMore(hist.fromHost, |hist.taken|, q, hist.lost);
  }

  lemma AwaitSlotKeepsInv(s: State)
    requires Inv(s)
    ensures Inv(AwaitSlot(s))
  {
    if s.helper.TestSlot? && s.slot.occupied && s.cancel {
      assert s.hist.lost == [];
    }
  }

  lemma CancellationPointKeepsInv(s: State)
    requires Inv(s)
    ensures Inv(CancellationPoint(s))
  {
    var t := CancellationPoint(s);
    assert t.slot == s.slot && Carries(t.helper) == Carries(s.helper);
  }

  lemma CopyInKeepsInv(s: State)
    requires Inv(s)
    ensures Inv(CopyIn(s))
  {
    if s.helper.Copying? && s.helper.k < |s.helper.p| {
      CopyOneMore(Bytes(s.slot), s.helper.p, s.helper.k);
    }
  }

  lemma PublishKeepsInv(s: State)
    requires Inv(s)
    ensures Inv(Publish(s))
  {
    match s.helper
    case SetLength(_) =>
    case SetOccupied(p) =>
      assert InFlight(Publish(s).slot, Publish(s).helper) == [p] == InFlight(s.slot, s.helper);
    case _ =>
  }

  lemma ReleaseKeepsInv(s: State)
    requires Inv(s)
    ensures Inv(Release(s))
  {
    assert Release(s).slot == s.slot && Carries(Release(s).helper) == Carries(s.helper);
  }

  lemma UnwindKeepsInv(s: State)
    requires Inv(s)
    ensures Inv(Unwind(s))
  {}

  lemma TakePacketKeepsInv(s: State)
    requires Inv(s)
    ensures Inv(TakePacket(s))
  {
    if s.core.ReadCopy? && |s.core.got| < Min(s.slot.length, s.core.cap) {
      assert TakePacket(s).core.got == Bytes(s.slot)[..|s.core.got| + 1];
    }
  }

  lemma ConsumeKeepsInv(s: State)
    requires Inv(s)
    ensures Inv(Consume(s))
  {
    if s.core.ReadClear? {
      TakeHead(s.hist, InFlight(s.slot, s.helper), s.core.cap);
      assert InFlight(Consume(s).slot, Consume(s).helper) == InFlight(s.slot, s.helper)[1..];
    }
  }

  lemma ReleaseSlotKeepsInv(s: State)
    requires Inv(s)
    ensures Inv(ReleaseSlot(s))
  {
    var t := ReleaseSlot(s);
    match s.core
    case ReadClearLength => assert InFlight(t.slot, t.helper) == InFlight(s.slot, s.helper);
    case ReadSignal => assert InFlight(t.slot, t.helper) == InFlight(s.slot, s.helper);
    case ReadUnlock =>
    case _ =>
  }

  lemma PeekAndDrainKeepsInv(s: State)
    requires Inv(s)
    ensures Inv(PeekAndDrain(s))
  {
    match s.core
    case PeekLock =>
    case PeekTest =>
    case PeekUnlock(_) =>
    case Polled =>
    case Drained =>
    case _ =>
  }

  lemma StopThreadKeepsInv(s: State)
    requires Inv(s)
    ensures Inv(StopThread(s))
  {}

  lemma TearDownKeepsInv(s: State)
    requires Inv(s)
    ensures Inv(TearDown(s))
  {
    if s.core.StopFree? {
      FreeKeepsInv(s);
    } else {
      assert s.core.StopClear? ==> s.slot.buffer.None?;
    }
  }

  lemma FreeKeepsInv(s: State)
    requires Inv(s) && s.core.StopFree?
    ensures Inv(TearDown(s))
  {
    assert InFlight(TearDown(s).slot, TearDown(s).helper) == [];
  }

  lemma CoreBeginsKeepsInv(s: State, a: Action)
    requires Inv(s)
    ensures Inv(CoreBegins(s, a))
  {}

  lemma HostPacketKeepsInv(s: State, p: Packet)
    requires Inv(s)
    ensures Inv(KernelActs(s, HostPacket(p)))
  {
    if s.helper.InRead? && |p| <= s.max {
      assert (s.hist.fromHost + [p])[|s.hist.taken|..] == s.hist.fromHost[|s.hist.taken|..] + [p];
      assert InFlight(s.slot, WantLock(p)) == InFlight(s.slot, s.helper) + [p];
    }
  }

  lemma KernelActsKeepsInv(s: State, a: Action)
    requires Inv(s)
    ensures Inv(KernelActs(s, a))
  {
    if a.HostPacket? {
      HostPacketKeepsInv(s, a.p);
    }
  }

  lemma HelperNextKeepsInv(s: State)
    requires Inv(s)
    ensures Inv(HelperNext(s))
  {
    AwaitSlotKeepsInv(s);
    CopyInKeepsInv(s);
    PublishKeepsInv(s);
    ReleaseKeepsInv(s);
    CancellationPointKeepsInv(s);
    UnwindKeepsInv(s);
  }

  lemma CoreNextKeepsInv(s: State)
    requires Inv(s)
    ensures Inv(CoreNext(s))
  {
    TakePacketKeepsInv(s);
    ConsumeKeepsInv(s);
    ReleaseSlotKeepsInv(s);
    PeekAndDrainKeepsInv(s);
    StopThreadKeepsInv(s);
    TearDownKeepsInv(s);
  }

  lemma StepKeepsInv(s: State, a: Action)
    requires Inv(s)
    ensures Inv(Step(s, a))
  {
    HelperNextKeepsInv(s);
    CoreNextKeepsInv(s);
    CoreBeginsKeepsInv(s, a);
    KernelActsKeepsInv(s, a);
  }

  lemma {:induction false} RunKeepsInv(s: State, actions: seq<Action>)
    requires Inv(s)
    ensures Inv(Run(s, actions))
    decreases |actions|
  {
    if actions != [] {
      StepKeepsInv(s, actions[0]);
      RunKeepsInv(Step(s, actions[0]), actions[1..]);
    }
  }

  lemma ReachableInv(max: nat, bound: bool, actions: seq<Action>)
    requires max < 0x1_0000
    ensures Inv(Run(Init(max, bound), actions))
  {
    RunKeepsInv(Init(max, bound), actions);
  }

  // ------------------------------------------------------------- the theorems

  /** In every interleaving, what `iface_read` returned in this activation is, in
      order and each cut to the caller's size, a prefix of what was read from
      FunctionFS; at most two packets are behind, and they are exactly the slot,
      the helper's read buffer, and what a stop has thrown away. */
  lemma OutIsFifo(max: nat, bound: bool, actions: seq<Action>)
    requires max < 0x1_0000
    ensures var s := Run(Init(max, bound), actions);
      var h := s.hist;
      && |h.taken| <= |h.fromHost| <= |h.taken| + 2
      && (forall i :: 0 <= i < |h.taken| ==> h.taken[i].data == Cut(h.fromHost[i], h.taken[i].cap))
      && h.fromHost[|h.taken|..] == InFlight(s.slot, s.helper) + h.lost
      && (h.lost != [] ==> s.cancel || s.helper.Absent?)
  {
    ReachableInv(max, bound, actions);
  }

  /** The queue a caller of `iface_read` thinks it talks to. */
  datatype Fifo = Fifo(queue: seq<Packet>, out: seq<Delivery>)

  function Abs(s: State): Fifo {
    Fifo(InFlight(s.slot, s.helper), s.hist.taken)
  }

  ghost predicate Put(f: Fifo, g: Fifo, p: Packet) {
    g == Fifo(f.queue + [p], f.out)
  }

  ghost predicate Get(f: Fifo, g: Fifo, cap: nat) {
    f.queue != [] && g == Fifo(f.queue[1..], f.out + [Delivery(Cut(f.queue[0], cap), cap)])
  }

  ghost predicate Forget(f: Fifo, g: Fifo) {
    g.queue <= f.queue && g.out == f.out
  }

  /** Every step of the implementation is a step of the queue or none: the host
      appends, a consuming `iface_read` removes the head, and only a stop forgets. */
  lemma StepRefinesFifo(s: State, a: Action)
    requires Inv(s) && !a.Start?
    ensures var f, g := Abs(s), Abs(Step(s, a));
      || g == f
      || (a.HostPacket? && Put(f, g, a.p))
      || (a.CoreStep? && s.core.ReadClear? && Get(f, g, s.core.cap))
      || ((s.cancel || TearingDown(s.core)) && Forget(f, g))
  {
    var f, g := Abs(s), Abs(Step(s, a));
    if a.HelperStep? {
      HelperRefinesFifo(s);
    } else if a.CoreStep? {
      CoreRefinesFifo(s);
    } else if a.HostPacket? && s.helper.InRead? && s.status.Running? && |a.p| <= s.max {
      assert Put(f, g, a.p);
    } else if a.CancelActs? && s.cancel {
      assert Forget(f, g);
    }
  }

  lemma HelperRefinesFifo(s: State)
    requires Inv(s)
    ensures Abs(HelperNext(s)) == Abs(s) || (s.cancel && Forget(Abs(s), Abs(HelperNext(s))))
  {
    var h := s.helper;
    if h.WantLock? || h.TestSlot? || h.Woken? {
      AwaitSlotRefinesFifo(s);
    } else if h.Copying? || h.SetLength? || h.SetOccupied? || h.Unlocking? {
      PublishRefinesFifo(s);
    } else {
      UnwindRefinesFifo(s);
    }
  }

  lemma AwaitSlotRefinesFifo(s: State)
    requires Inv(s)
    ensures Abs(AwaitSlot(s)) == Abs(s) || (s.cancel && Forget(Abs(s), Abs(AwaitSlot(s))))
  {}

  lemma PublishRefinesFifo(s: State)
    requires Inv(s)
    ensures Abs(CopyIn(s)) == Abs(s)
    ensures Abs(Publish(s)) == Abs(s)
    ensures Abs(Release(s)) == Abs(s)
  {}

  lemma UnwindRefinesFifo(s: State)
    requires Inv(s)
    ensures Abs(Unwind(s)) == Abs(s)
    ensures Abs(CancellationPoint(s)) == Abs(s)
  {}

  lemma CoreRefinesFifo(s: State)
    requires Inv(s)
    ensures var f, g := Abs(s), Abs(CoreNext(s));
      || g == f
      || (s.core.ReadClear? && Get(f, g, s.core.cap))
      || (TearingDown(s.core) && Forget(f, g))
  {
    if s.core.ReadClear? {
      ClearRefinesGet(s);
    } else if TearingDown(s.core) {
      TearDownForgets(s);
    } else {
      assert Abs(CoreNext(s)) == Abs(s);
    }
  }

  lemma TearDownForgets(s: State)
    requires Inv(s) && TearingDown(s.core)
    ensures Forget(Abs(s), Abs(CoreNext(s))) || Abs(CoreNext(s)) == Abs(s)
  {
    if !s.core.StopCloseEvent? {
      assert Abs(CoreNext(s)).queue == [];
    }
  }

  lemma ClearRefinesGet(s: State)
    requires Inv(s) && s.core.ReadClear?
    ensures CoreNext(s) == s || Get(Abs(s), Abs(CoreNext(s)), s.core.cap)
  {
    assert Abs(s).queue[0] == Bytes(s.slot)[..s.slot.length];
    assert Cut(Abs(s).queue[0], s.core.cap) == s.core.got;
    assert Abs(CoreNext(s)).queue == Abs(s).queue[1..];
  }

  /** Nothing crosses activations: whatever a previous one left, the helper that
      the next enable starts sees an empty slot, a zero counter and a free mutex. */
  lemma StartForgets(max: nat, bound: bool, actions: seq<Action>, garbage: seq<byte>)
    requires max < 0x1_0000
    ensures var s := Run(Init(max, bound), actions);
      var starts := s.status.Running? && s.core.Idle? && s.helper.Absent? && |garbage| == s.max;
      Step(s, Start(garbage)) == if starts then Fresh(s.max, s.bound, garbage) else s
  {
    ReachableInv(max, bound, actions);
  }

  /** A step ends the process exactly when FunctionFS fails, when the helper's write to its
      eventfd fails, which takes an overflow or a usb_init over it (`OnlyResetForgets`), or
      when Core drains an eventfd that a stop has closed since the poll (`StaleExactly`).
      No step ever touches a freed buffer. */
  lemma DiesExactlyWhen(max: nat, bound: bool, actions: seq<Action>, a: Action)
    requires max < 0x1_0000
    requires Run(Init(max, bound), actions).status.Running?
    ensures var s := Run(Init(max, bound), actions);
      && !Step(s, a).status.Fault?
      && (Step(s, a).status.Died? <==>
            || (a.HostError? && s.helper.InRead?)
            || (a.HelperStep? && s.helper.Notify? && !s.cancel && (Forgotten(s) || s.event.value >= EVENTFD_MAX))
            || (a.CoreStep? && s.core.Stale?))
  {
    ReachableInv(max, bound, actions);
    var s := Run(Init(max, bound), actions);
    StepKeepsInv(s, a);
    ExitsExactly(s, a);
  }

  lemma ExitsExactly(s: State, a: Action)
    requires Inv(s) && s.status.Running?
    ensures Step(s, a).status.Died? <==>
      || (a.HostError? && s.helper.InRead?)
      || (a.HelperStep? && s.helper.Notify? && !s.cancel && (Forgotten(s) || s.event.value >= EVENTFD_MAX))
      || (a.CoreStep? && s.core.Stale?)
  {
    if a.CoreStep? {
      CoreDiesStale(s);
    }
  }

  lemma CoreDiesStale(s: State)
    requires Inv(s) && s.status.Running?
    ensures CoreNext(s).status.Died? <==> s.core.Stale?
  {}

  /** A stop began between poll and drain, and the pass has not got over it yet. */
  predicate Late(c: CorePc) {
    c.Stale? || (Stopping(c) && c.late)
  }

  /** The same, told by the run: the latest stop that came after a poll was not followed
      by a pass that returned early. */
  predicate Reported(s: State, actions: seq<Action>, before: bool)
    decreases |actions|
  {
    if actions == [] then before
    else
      var a := actions[0];
      var after := (a.Stop? && s.core.Polled?) || (before && !(a.EarlyReturn? && s.core.Stale?));
      Reported(Step(s, a), actions[1..], after)
  }

  lemma StepIsLate(s: State, a: Action)
    requires Inv(s) && s.status.Running? && Step(s, a).status.Running?
    ensures Late(Step(s, a).core) <==>
      (a.Stop? && s.core.Polled?) || (Late(s.core) && !(a.EarlyReturn? && s.core.Stale?))
  {
    if a.HelperStep? {
      HelperLeavesCore(s);
    } else if a.CoreStep? {
      CoreStaysLate(s);
    }
  }

  lemma HelperLeavesCore(s: State)
    ensures HelperNext(s).core == s.core
  {}

  lemma CoreStaysLate(s: State)
    requires Inv(s) && CoreNext(s).status.Running?
    ensures Late(CoreNext(s).core) <==> Late(s.core)
  {
    if s.core.StopCancel? || s.core.StopJoin? {
      assert CoreNext(s) == StopThread(s);
    } else if TearingDown(s.core) {
      assert CoreNext(s) == TearDown(s);
    } else {
      CoreStaysAtWork(s);
    }
  }

  lemma CoreStaysAtWork(s: State)
    requires !Stopping(s.core) && CoreNext(s).status.Running?
    ensures !s.core.Stale? && !Late(CoreNext(s).core)
  {
    if s.core.ReadLock? || s.core.ReadTest? || s.core.ReadCopy? {
      assert CoreNext(s) == TakePacket(s);
    } else if s.core.ReadClear? {
      assert CoreNext(s) == Consume(s);
    } else if s.core.ReadClearLength? || s.core.ReadSignal? || s.core.ReadUnlock? {
      assert CoreNext(s) == ReleaseSlot(s);
    } else {
      assert CoreNext(s) == PeekAndDrain(s);
    }
  }

  lemma {:induction false} RunIsLate(s: State, actions: seq<Action>, before: bool)
    requires Inv(s) && (Late(s.core) <==> before)
    ensures Run(s, actions).status.Running? ==> (Late(Run(s, actions).core) <==> Reported(s, actions, before))
    decreases |actions|
  {
    if actions != [] {
      var a := actions[0];
      var after := (a.Stop? && s.core.Polled?) || (before && !(a.EarlyReturn? && s.core.Stale?));
      if s.status.Running? && Step(s, a).status.Running? {
        StepIsLate(s, a);
        StepKeepsInv(s, a);
        RunIsLate(Step(s, a), actions[1..], after);
      } else {
        DeadStaysDead(Step(s, a), actions[1..]);
      }
    }
  }

  lemma {:induction false} DeadStaysDead(s: State, actions: seq<Action>)
    requires !s.status.Running?
    ensures Run(s, actions) == s
    decreases |actions|
  {
    if actions != [] {
      DeadStaysDead(s, actions[1..]);
    }
  }

  /** Core comes to drain an eventfd that is closed exactly when a stop came between the
      poll that reported it and the drain. */
  lemma StaleExactly(max: nat, bound: bool, actions: seq<Action>)
    requires max < 0x1_0000 && Run(Init(max, bound), actions).status.Running?
    ensures Late(Run(Init(max, bound), actions).core) <==> Reported(Init(max, bound), actions, false)
  {
    RunIsLate(Init(max, bound), actions, false);
  }

  predicate NoReset(actions: seq<Action>) {
    forall i :: 0 <= i < |actions| ==> !actions[i].Reset?
  }

  lemma StepRemembers(s: State, a: Action)
    requires Inv(s) && !Forgotten(s) && !a.Reset?
    ensures !Forgotten(Step(s, a))
  {
    if a.HelperStep? {
      HelperRemembers(s);
    } else if a.CoreStep? {
      CoreRemembers(s);
    }
  }

  lemma HelperRemembers(s: State)
    requires !Forgotten(s)
    ensures !Forgotten(HelperNext(s))
  {}

  lemma CoreRemembers(s: State)
    requires Inv(s) && !Forgotten(s)
    ensures !Forgotten(CoreNext(s))
  {}

  lemma {:induction false} RunRemembers(s: State, actions: seq<Action>)
    requires Inv(s) && !Forgotten(s) && NoReset(actions)
    ensures !Forgotten(Run(s, actions))
    decreases |actions|
  {
    if actions != [] {
      StepRemembers(s, actions[0]);
      StepKeepsInv(s, actions[0]);
      RunRemembers(Step(s, actions[0]), actions[1..]);
    }
  }

  /** Only usb_init over a running helper makes its eventfd fail. */
  lemma OnlyResetForgets(max: nat, bound: bool, actions: seq<Action>)
    requires max < 0x1_0000 && NoReset(actions)
    ensures !Forgotten(Run(Init(max, bound), actions))
  {
    RunRemembers(Init(max, bound), actions);
  }

  /** No OUT packet goes unannounced. */
  lemma NoSilentPacket(max: nat, bound: bool, actions: seq<Action>)
    requires max < 0x1_0000
    ensures var s := Run(Init(max, bound), actions);
      s.slot.occupied && s.bound && !Stopping(s.core) ==>
        || s.announced
        || (s.event.Some? && s.event.value > 0)
        || s.helper.Unlocking? || s.helper.Notify?
        || s.core.Drained?
        || Forgotten(s)
  {
    ReachableInv(max, bound, actions);
  }

  // ------------------------------------------------- liveness and cancellation

  /** No lost wake-up and no deadlock: a helper that sleeps has a full slot in
      front of it or a signal coming, a helper that is neither asleep nor in read
      can move unless Core holds the mutex, and Core can always move unless it is
      joining a helper that can. */
  lemma NoDeadlock(max: nat, bound: bool, actions: seq<Action>)
    requires max < 0x1_0000
    requires Run(Init(max, bound), actions).status.Running?
    ensures var s := Run(Init(max, bound), actions);
      && (s.helper.Asleep? ==> s.slot.occupied || s.core.ReadClearLength? || s.core.ReadSignal?)
      && (s.helper.Absent? || s.helper.Finished? || s.helper.InRead? || s.helper.Asleep?
          || s.mutex.Core? || HelperNext(s) != s)
      && (s.core.Idle? || CoreNext(s) != s
          || HelperNext(s) != s || Step(s, CancelActs) != s)
  {
    ReachableInv(max, bound, actions);
    var s := Run(Init(max, bound), actions);
    HelperMoves(s);
    CoreMoves(s);
  }

  lemma HelperMoves(s: State)
    requires Inv(s) && s.status.Running?
    ensures || s.helper.Absent? || s.helper.Finished? || s.helper.InRead? || s.helper.Asleep?
            || s.mutex.Core? || HelperNext(s) != s
  {
    var t := HelperNext(s);
    match s.helper
    case WantLock(_) => assert t.helper != s.helper || s.mutex.Core?;
    case Woken(_) => assert t.helper != s.helper || s.mutex.Core?;
    case CancelRelock => assert t.helper != s.helper || s.mutex.Core?;
    case _ =>
  }

  lemma CoreMoves(s: State)
    requires Inv(s) && s.status.Running?
    ensures s.core.Idle? || CoreNext(s) != s || HelperNext(s) != s || Step(s, CancelActs) != s
  {
    var t := CoreNext(s);
    match s.core
    case ReadCopy(_, _) => assert t.core != s.core || t.status != s.status;
    case ReadLock(_) => HelperMoves(s); assert t.core != s.core || s.mutex.Helper?;
    case PeekLock => HelperMoves(s); assert t.core != s.core || s.mutex.Helper?;
    case StopJoin(_) => CancelledMoves(s);
    case _ =>
  }

  lemma CancelledMoves(s: State)
    requires Inv(s) && s.status.Running? && s.core.StopJoin?
    ensures CoreNext(s) != s || HelperNext(s) != s || Step(s, CancelActs) != s
  {
    HelperMoves(s);
    if s.helper.InRead? || s.helper.Asleep? {
      assert Step(s, CancelActs).helper != s.helper;
    }
  }

  /** Upper bound on the moves a cancelled helper still makes. */
  function Rank(h: HelperPc, max: nat): nat {
    match h
    case Absent => 0
    case Finished => 0
    case EnterRead => 1
    case Notify => 2
    case CancelUnlock => 2
    case CancelRelock => 3
    case Unlocking => 3
    case SetOccupied(_) => 4
    case SetLength(_) => 5
    case Copying(p, k) => if k <= |p| then 6 + |p| - k else 6
    case TestSlot(p) => 7 + |p|
    case Woken(p) => 8 + |p|
    case WantLock(p) => 8 + |p|
    case Asleep(p) => 9 + |p|
    case InRead => 9 + max
  }

  /** While a cancellation is pending no action of anybody lets the helper run
      longer: it stands still or its rank drops. */
  lemma CancelledHelperWindsDown(s: State, a: Action)
    requires Inv(s) && s.cancel
    ensures var t := Step(s, a);
      t.helper == s.helper || Rank(t.helper, s.max) < Rank(s.helper, s.max) || t.helper.Absent?
  {
    if a.CoreStep? {
      assert CoreNext(s) == StopThread(s);
    } else if a.HelperStep? {
      CancelledStepWindsDown(s);
    }
  }

  lemma CancelledStepWindsDown(s: State)
    requires Inv(s) && s.cancel
    ensures var t := HelperNext(s); t.helper == s.helper || Rank(t.helper, s.max) < Rank(s.helper, s.max)
  {}

  /** A cancelled helper is never stuck, wherever it was cancelled. */
  lemma CancelledHelperMoves(s: State)
    requires Inv(s) && s.cancel && s.status.Running? && !s.helper.Finished?
    ensures var t := Step(s, if s.helper.InRead? || s.helper.Asleep? then CancelActs else HelperStep);
      t.cancel && t.status.Running? && Rank(t.helper, s.max) < Rank(s.helper, s.max)
  {
    var a := if s.helper.InRead? || s.helper.Asleep? then CancelActs else HelperStep;
    assert s.mutex.Free? || s.mutex.Helper?;
    CancelledHelperWindsDown(s, a);
    HelperMoves(s);
  }

  /** `actions` lead from `s` to the return of pthread_join, in bounded time. */
  ghost predicate Joined(s: State, actions: seq<Action>) {
    var t := Run(s, actions);
    && |actions| <= Rank(s.helper, s.max) + 1 && t.status.Running?
    && t.helper.Absent? && t.core.StopCloseEvent? && t.mutex.Free? && (s.core.StopJoin? ==> t.core.late == s.core.late)
  }

  lemma RunFirst(s: State, a: Action, rest: seq<Action>)
    ensures Run(s, [a] + rest) == Run(Step(s, a), rest)
  {
    assert ([a] + rest)[1..] == rest;
  }

  lemma JoinsAfter(s: State, a: Action, rest: seq<Action>)
    requires Inv(s) && s.cancel && s.status.Running? && !s.helper.Finished?
    requires a == if s.helper.InRead? || s.helper.Asleep? then CancelActs else HelperStep
    requires Joined(Step(s, a), rest)
    ensures Joined(s, [a] + rest)
  {
    CancelledHelperMoves(s);
    MaxIsConstant(s, a);
    RunFirst(s, a, rest);
    if a.HelperStep? {
      HelperLeavesCore(s);
    }
  }

  /** So pthread_join returns from every program counter at which the helper can
      be cancelled, and the endpoint's mutex is free when it does. */
  lemma {:induction false} JoinReturns(s: State)
    requires Inv(s) && s.cancel && s.status.Running?
    ensures exists actions :: Joined(s, actions)
    decreases Rank(s.helper, s.max)
  {
    if s.helper.Finished? {
      StepKeepsInv(s, CoreStep);
      RunFirst(s, CoreStep, []);
      assert Joined(s, [CoreStep] + []);
    } else {
      var a := if s.helper.InRead? || s.helper.Asleep? then CancelActs else HelperStep;
      CancelledHelperMoves(s);
      StepKeepsInv(s, a);
      MaxIsConstant(s, a);
      JoinReturns(Step(s, a));
      var rest :| Joined(Step(s, a), rest);
      JoinsAfter(s, a, rest);
    }
  }

  lemma MaxIsConstant(s: State, a: Action)
    ensures Step(s, a).max == s.max
  {
    if a.HelperStep? {
    } else if a.CoreStep? {
    } else if a.Start? || a.Stop? || a.CallRead? || a.CallReady? || a.Poll? || a.EarlyReturn? {
    } else {
    }
  }
}
