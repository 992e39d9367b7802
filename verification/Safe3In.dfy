/** The Safe 3 IN endpoint: `in_thread_main`, `iface_write`, `iface_write_ready`,
    the event drain of `service_controller` and start/stop of the helper.

    The helper hands the slot buffer to `write` after it has released the mutex,
    so the kernel reads the bytes while Core is free to run. The model lets it read
    them one at a time, with any action of Core in between. */
module Safe3In {
  import opened Common

  datatype HelperPc =
    | Absent
    | EnterLock                       // locking the mutex for a new packet
    | TestSlot                        // holds the mutex
    | Asleep                          // in pthread_cond_wait, mutex released
    | Woken                           // in pthread_cond_wait, re-acquiring
    | TakeLength                      // slot is full, mutex held
    | Unlock(n: nat)
    | EnterWrite(n: nat)              // calling write: a cancellation point
    | Sending(n: nat, got: Packet)    // the kernel has read `got` from the buffer
    | Relock                          // the host took the packet
    | ClearLength
    | ClearOccupied
    | SignalConsumed
    | UnlockCleared
    | Notify                          // calling write(event_fd)
    | CancelRelock
    | CancelUnlock
    | Finished                        // returned or cancelled, not joined yet
    | FinishedSent                    // cancelled although the host took the packet

  datatype CorePc =
    | Idle
    | WriteLock(data: Packet)
    | WriteTest(data: Packet)
    | WriteCopy(data: Packet, k: nat)
    | WriteSetLength(data: Packet)
    | WriteSetOccupied(data: Packet)
    | WriteSignal
    | WriteUnlock
    | PeekLock
    | PeekTest
    | PeekUnlock(ready: bool)         // iface_write_ready has its answer
    | Polled
    | Drained
    | Stale                           // as Polled, but a stop came after the poll
    | StopCancel(late: bool)          // late: it began between poll and drain
    | StopJoin(late: bool)
    | StopCloseEvent(late: bool)
    | StopFree(late: bool)
    | StopClear(late: bool)

  datatype History = History(
    accepted: seq<Packet>,            // what iface_write took from firmware
    toHost: seq<Packet>,              // transfers FunctionFS completed
    lost: seq<Packet>)                // what a stop threw away

  datatype State = State(
    status: Status,
    max: nat,
    bound: bool,
    helper: HelperPc,
    core: CorePc,
    mutex: Owner,
    cancel: bool,
    slot: Slot,
    event: Option<nat>,
    hist: History,
    announced: bool)                  // Core signalled since the slot was last freed

  datatype Action =
    | Start(garbage: seq<byte>)
    | Stop
    | CallWrite(data: Packet)
    | CallReady
    | Poll
    | EarlyReturn
    | Reset                           // usb_init overwrites event_fd
    | CoreStep
    | HelperStep
    | KernelReads                     // write copies one more byte of the buffer
    | HostAccepts                     // write returns the full length
    | HostEnd
    | HostError
    | ShortWrite
    | Interrupted
    | SpuriousWake
    | CancelActs
    | CancelSent                      // cancelled in write after the transfer completed

  function Init(max: nat, bound: bool): State {
    State(Running, max, bound, Absent, Idle, Free, false, Slot(None, 0, false), None, History([], [], []), true)
  }

  function Fresh(max: nat, bound: bool, garbage: seq<byte>): State {
    State(Running, max, bound, EnterLock, Idle, Free, false, Slot(Some(garbage), 0, false), Some(0),
          History([], [], []), true)
  }

  /** in_thread_main until it holds the mutex of a full slot. */
  function AwaitPacket(s: State): State {
    match s.helper
    case EnterLock => if s.mutex.Free? then s.(helper := TestSlot, mutex := Helper) else s
    case TestSlot =>
      if s.slot.occupied then s.(helper := TakeLength)
      else if s.cancel then s.(helper := CancelUnlock)
      else s.(helper := Asleep, mutex := Free)
    case Woken => if s.mutex.Free? then s.(helper := TestSlot, mutex := Helper) else s
    case _ => s
  }

  /** in_thread_main from reading packet_length to calling write. */
  function Offer(s: State): State {
    match s.helper
    case TakeLength => s.(helper := Unlock(s.slot.length))
    case Unlock(n) => s.(helper := EnterWrite(n), mutex := Free)
    case EnterWrite(n) => if s.cancel then s.(helper := Finished) else s.(helper := Sending(n, []))
    case _ => s
  }

  /** in_thread_main freeing the slot the host has taken. */
  function FreeSlot(s: State): State {
    match s.helper
    case Relock => if s.mutex.Free? then s.(helper := ClearLength, mutex := Helper) else s
    case ClearLength => s.(helper := ClearOccupied, slot := s.slot.(length := 0))
    case ClearOccupied => s.(helper := SignalConsumed, slot := s.slot.(occupied := false), announced := false)
    case _ => s
  }

  /** in_thread_main signalling `consumed`, which nobody waits on, and unlocking. */
  function Release(s: State): State {
    match s.helper
    case SignalConsumed => s.(helper := UnlockCleared)
    case UnlockCleared => s.(helper := Notify, mutex := Free)
    case _ => s
  }

  /** in_thread_main writing its eventfd. */
  function Announce(s: State): State {
    match s.helper
    case Notify =>
      if s.cancel then s.(helper := Finished)
      else if s.event.None? || s.event.value >= EVENTFD_MAX then s.(status := Died)
      else s.(helper := EnterLock, event := Some(s.event.value + 1))
    case _ => s
  }

  function Unwind(s: State): State {
    match s.helper
    case CancelRelock => if s.mutex.Free? then s.(helper := CancelUnlock, mutex := Helper) else s
    case CancelUnlock => s.(helper := Finished, mutex := Free)
    case _ => s
  }

  /** iface_write up to the end of its memcpy. */
  function PutPacket(s: State): State {
    match s.core
    case WriteLock(data) => if s.mutex.Free? then s.(core := WriteTest(data), mutex := Core) else s
    case WriteTest(data) => if s.slot.occupied then s.(core := WriteUnlock) else s.(core := WriteCopy(data, 0))
    case WriteCopy(data, k) =>
      if k >= |data| then s.(core := WriteSetLength(data))
      else if s.slot.buffer.None? || k >= |s.slot.buffer.value| then s.(status := Fault)
      else s.(core := WriteCopy(data, k + 1), slot := s.slot.(buffer := Some(s.slot.buffer.value[k := data[k]])))
    case _ => s
  }

  /** iface_write filling in packet_length and occupied. */
  function Accept(s: State): State {
    match s.core
    case WriteSetLength(data) =>
      s.(core := WriteSetOccupied(data), slot := s.slot.(length := |data| % 0x1_0000))
    case WriteSetOccupied(data) =>
      s.(core := WriteSignal, slot := s.slot.(occupied := true),
         hist := s.hist.(accepted := s.hist.accepted + [data]))
    case _ => s
  }

  /** iface_write signalling `produced` and unlocking. */
  function SignalAndUnlock(s: State): State {
    match s.core
    case WriteSignal => s.(core := WriteUnlock, helper := if s.helper.Asleep? then Woken else s.helper)
    case WriteUnlock => s.(core := Idle, mutex := Free)
    case _ => s
  }

  /** iface_write_ready */
  function Peek(s: State): State {
    match s.core
    case PeekLock => if s.mutex.Free? then s.(core := PeekTest, mutex := Core) else s
    case PeekTest => s.(core := PeekUnlock(!s.slot.occupied))
    case PeekUnlock(_) => s.(core := Idle, mutex := Free)
    case _ => s
  }

  /** The endpoint loop at the end of service_controller. */
  function Drain(s: State): State {
    match s.core
    case Polled =>
      if s.event.None? then s.(status := Fault)
      else if s.event.value == 0 then s.(status := Died)
      else s.(core := Drained, event := Some(0))
    case Drained => s.(core := Idle, announced := s.announced || s.bound)
    case Stale => s.(status := Died)
    case _ => s
  }

  function StopThread(s: State): State {
    match s.core
    case StopCancel(late) => s.(core := StopJoin(late), cancel := true)
    case StopJoin(late) =>
      if s.helper.Finished? || s.helper.FinishedSent? then
        s.(core := StopCloseEvent(late), helper := Absent, cancel := false,
           hist := s.hist.(lost := Outstanding(s.slot, s.helper)))
      else s
    case _ => s
  }

  function TearDown(s: State): State {
    match s.core
    case StopCloseEvent(late) => s.(core := StopFree(late), event := None)
    case StopFree(late) => s.(core := StopClear(late), slot := s.slot.(buffer := None))
    case StopClear(late) =>
      s.(core := if late then Stale else Idle, slot := s.slot.(length := 0, occupied := false))
    case _ => s
  }

  /** usb_init has overwritten event_fd under the helper: every later write to it fails. */
  predicate Forgotten(s: State) {
    s.event.None? && !s.helper.Absent?
  }

  /** What Core begins between operations. `iface_write` turns a packet away before
      it locks anything when the endpoint is not running or the packet too long. */
  function CoreBegins(s: State, a: Action): State {
    match a
    case Start(garbage) =>
      if s.core.Idle? && s.helper.Absent? && |garbage| == s.max then
        s.(helper := EnterLock, slot := s.slot.(buffer := Some(garbage)), event := Some(0),
           hist := History([], [], []), announced := true)
      else s
    case Stop =>
      if s.core.Idle? || s.core.Polled? then
        s.(core := if s.helper.Absent? then StopCloseEvent(s.core.Polled?) else StopCancel(s.core.Polled?))
      else s
    case CallWrite(data) =>
      if s.core.Idle? && !s.helper.Absent? && !Forgotten(s) && |data| <= s.max then s.(core := WriteLock(data)) else s
    case CallReady => if s.core.Idle? then s.(core := PeekLock) else s
    case Poll => if s.core.Idle? && s.event.Some? && s.event.value > 0 then s.(core := Polled) else s
    case EarlyReturn => if s.core.Polled? || s.core.Stale? then s.(core := Idle) else s
    case Reset => if s.core.Idle? then s.(event := None) else s
    case _ => s
  }

  /** The progress and outcomes of the blocking write. */
  function Transfer(s: State, a: Action): State
    requires s.helper.Sending?
  {
    var n, got := s.helper.n, s.helper.got;
    match a
    case KernelReads =>
      if |got| >= n then s
      else if s.slot.buffer.None? || |got| >= |s.slot.buffer.value| then s.(status := Fault)
      else s.(helper := Sending(n, got + [s.slot.buffer.value[|got|]]))
    case HostAccepts =>
      if |got| == n then s.(helper := Relock, hist := s.hist.(toHost := s.hist.toHost + [got])) else s
    case CancelSent =>
      if s.cancel && |got| == n then s.(helper := FinishedSent, hist := s.hist.(toHost := s.hist.toHost + [got]))
      else s
    case CancelActs => if s.cancel then s.(helper := Finished) else s
    case Interrupted => s.(helper := EnterWrite(n))
    case HostEnd => s.(helper := Finished)
    case HostError => s.(status := Died)
    case ShortWrite => s.(status := Died)
    case _ => s
  }

  function KernelActs(s: State, a: Action): State {
    if s.helper.Sending? then Transfer(s, a)
    else if a.SpuriousWake? && s.helper.Asleep? then s.(helper := Woken)
    else if a.CancelActs? && s.cancel && (s.helper.Asleep? || s.helper.Woken?) then s.(helper := CancelRelock)
    else s
  }

  function HelperNext(s: State): State {
    match s.helper
    case TakeLength => Offer(s)
    case Unlock(_) => Offer(s)
    case EnterWrite(_) => Offer(s)
    case Relock => FreeSlot(s)
    case ClearLength => FreeSlot(s)
    case ClearOccupied => FreeSlot(s)
    case SignalConsumed => Release(s)
    case UnlockCleared => Release(s)
    case Notify => Announce(s)
    case CancelRelock => Unwind(s)
    case CancelUnlock => Unwind(s)
    case _ => AwaitPacket(s)
  }

  function CoreNext(s: State): State {
    match s.core
    case WriteLock(_) => PutPacket(s)
    case WriteTest(_) => PutPacket(s)
    case WriteCopy(_, _) => PutPacket(s)
    case WriteSetLength(_) => Accept(s)
    case WriteSetOccupied(_) => Accept(s)
    case WriteSignal => SignalAndUnlock(s)
    case WriteUnlock => SignalAndUnlock(s)
    case StopCancel(_) => StopThread(s)
    case StopJoin(_) => StopThread(s)
    case StopCloseEvent(_) => TearDown(s)
    case StopFree(_) => TearDown(s)
    case StopClear(_) => TearDown(s)
    case Polled => Drain(s)
    case Drained => Drain(s)
    case Stale => Drain(s)
    case _ => Peek(s)
  }

  function Step(s: State, a: Action): State {
    if !s.status.Running? then s
    else if a.HelperStep? then HelperNext(s)
    else if a.CoreStep? then CoreNext(s)
    else if a.Start? || a.Stop? || a.CallWrite? || a.CallReady? || a.Poll? || a.EarlyReturn? || a.Reset? then
      CoreBegins(s, a)
    else KernelActs(s, a)
  }

  function Run(s: State, actions: seq<Action>): State
    decreases |actions|
  {
    if actions == [] then s else Run(Step(s, actions[0]), actions[1..])
  }

  // ---------------------------------------------------------------- invariant

  predicate HelperHolds(h: HelperPc) {
    h.TestSlot? || h.TakeLength? || h.Unlock? || h.ClearLength? || h.ClearOccupied?
    || h.SignalConsumed? || h.UnlockCleared? || h.CancelUnlock?
  }

  predicate CoreHolds(c: CorePc) {
    c.WriteTest? || c.WriteCopy? || c.WriteSetLength? || c.WriteSetOccupied? || c.WriteSignal? || c.WriteUnlock?
    || c.PeekTest? || c.PeekUnlock?
  }

  predicate TearingDown(c: CorePc) {
    c.StopCloseEvent? || c.StopFree? || c.StopClear?
  }

  predicate Stopping(c: CorePc) {
    c.StopCancel? || c.StopJoin? || TearingDown(c)
  }

  /** The helper has seen the packet in the slot and the host may be reading it. */
  predicate Offering(h: HelperPc) {
    h.TakeLength? || h.Unlock? || h.EnterWrite? || h.Sending?
  }

  /** The host has taken the packet that is still in the slot. */
  predicate PastWrite(h: HelperPc) {
    h.Relock? || h.ClearLength? || h.ClearOccupied? || h.FinishedSent?
  }

  /** The packet firmware handed over and the host has not taken. */
  function Outstanding(slot: Slot, h: HelperPc): (q: seq<Packet>)
    ensures |q| <= 1
  {
    if slot.occupied && !PastWrite(h) && !h.Absent? && slot.length <= |Bytes(slot)| then [Bytes(slot)[..slot.length]]
    else []
  }

  predicate LockInv(mutex: Owner, h: HelperPc, c: CorePc) {
    && (mutex.Helper? <==> HelperHolds(h))
    && (mutex.Core? <==> CoreHolds(c))
  }

  predicate LiveInv(h: HelperPc, c: CorePc, slot: Slot, event: Option<nat>, max: nat) {
    && max < 0x1_0000
    && (slot.buffer.Some? ==> |slot.buffer.value| == max)
    && (!h.Absent? ==> slot.buffer.Some?)
    && (TearingDown(c) ==> h.Absent?)
    && (c.StopFree? || c.StopClear? ==> event.None?)
    && (c.StopClear? ==> slot.buffer.None?)
    && (h.Absent? && !TearingDown(c) ==> slot == Slot(None, 0, false) && event.None?)
    && (slot.occupied && !c.StopClear? ==> slot.buffer.Some? && slot.length <= max)
    && (c.Polled? ==> event.Some? && event.value > 0)
    && (c.Drained? ==> event.Some?)
    && (c.Stale? ==> h.Absent?)
  }

  predicate CancelInv(h: HelperPc, c: CorePc, cancel: bool) {
    && (cancel <==> c.StopJoin?)
    && (c.StopCancel? || c.StopJoin? ==> !h.Absent?)
    && (h.CancelRelock? || h.CancelUnlock? ==> cancel)
  }

  /** From the moment the helper has seen a packet until it clears `occupied`, the
      slot is full, so its length and bytes are what the helper saw. */
  predicate HelperInv(h: HelperPc, slot: Slot) {
    && (Offering(h) || PastWrite(h) ==> slot.occupied)
    && (h.Unlock? || h.EnterWrite? || h.Sending? ==> h.n == slot.length <= |Bytes(slot)|)
    && (h.Sending? ==> |h.got| <= h.n && h.got == Bytes(slot)[..|h.got|])
  }

  predicate CoreInv(c: CorePc, slot: Slot, h: HelperPc, max: nat) {
    && (c.WriteLock? || c.WriteTest? || c.WriteCopy? || c.WriteSetLength? || c.WriteSetOccupied? ==>
          !h.Absent? && |c.data| <= max)
    && (c.WriteCopy? || c.WriteSetLength? || c.WriteSetOccupied? ==> !slot.occupied)
    && (c.WriteCopy? ==> c.k <= |c.data| && c.k <= |Bytes(slot)| && Bytes(slot)[..c.k] == c.data[..c.k])
    && (c.WriteSetLength? || c.WriteSetOccupied? ==>
          |c.data| <= |Bytes(slot)| && Bytes(slot)[..|c.data|] == c.data)
    && (c.WriteSetOccupied? ==> slot.length == |c.data|)
    && (c.PeekUnlock? && c.ready ==> !slot.occupied)
  }

  /** Everything accepted has reached the host, is outstanding, or was lost. */
  predicate QueueInv(hist: History, out: seq<Packet>) {
    hist.accepted == hist.toHost + out + hist.lost && |out| + |hist.lost| <= 1
  }

  predicate LossInv(lost: seq<Packet>, h: HelperPc) {
    lost != [] ==> h.Absent?
  }

  predicate WakeInv(h: HelperPc, c: CorePc, occupied: bool) {
    h.Asleep? ==> !occupied || c.WriteSignal?
  }

  predicate AnnounceInv(s: State) {
    !s.slot.occupied && s.bound && !Stopping(s.core) ==>
      || s.announced
      || (s.event.Some? && s.event.value > 0)
      || s.helper.SignalConsumed? || s.helper.UnlockCleared? || s.helper.Notify?
      || s.core.Drained?
      || Forgotten(s)
      || s.helper.Absent?
  }

  predicate Inv(s: State) {
    && !s.status.Fault?
    && LockInv(s.mutex, s.helper, s.core)
    && LiveInv(s.helper, s.core, s.slot, s.event, s.max)
    && CancelInv(s.helper, s.core, s.cancel)
    && HelperInv(s.helper, s.slot)
    && CoreInv(s.core, s.slot, s.helper, s.max)
    && QueueInv(s.hist, Outstanding(s.slot, s.helper))
    && LossInv(s.hist.lost, s.helper)
    && WakeInv(s.helper, s.core, s.slot.occupied)
    && AnnounceInv(s)
  }

  lemma AwaitPacketKeepsInv(s: State)
    requires Inv(s)
    ensures Inv(AwaitPacket(s))
  {
    if s.helper.TestSlot? {
      TestSlotKeepsInv(s);
    } else {
      assert Outstanding(AwaitPacket(s).slot, AwaitPacket(s).helper) == Outstanding(s.slot, s.helper);
    }
  }

  lemma TestSlotKeepsInv(s: State)
    requires Inv(s) && s.helper.TestSlot?
    ensures Inv(AwaitPacket(s))
  {
    assert Outstanding(AwaitPacket(s).slot, AwaitPacket(s).helper) == Outstanding(s.slot, s.helper);
  }

  lemma OfferKeepsInv(s: State)
    requires Inv(s)
    ensures Inv(Offer(s))
  {
    var t := Offer(s);
    assert t.slot == s.slot && PastWrite(t.helper) == PastWrite(s.helper);
  }

  lemma FreeSlotKeepsInv(s: State)
    requires Inv(s)
    ensures Inv(FreeSlot(s))
  {
    if s.helper.ClearOccupied? {
      assert Outstanding(FreeSlot(s).slot, FreeSlot(s).helper) == [];
    } else if s.helper.Relock? || s.helper.ClearLength? {
      assert Outstanding(FreeSlot(s).slot, FreeSlot(s).helper) == Outstanding(s.slot, s.helper);
    }
  }

  lemma ReleaseKeepsInv(s: State)
    requires Inv(s)
    ensures Inv(Release(s))
  {
    var t := Release(s);
    assert t.slot == s.slot && PastWrite(t.helper) == PastWrite(s.helper);
  }

  lemma AnnounceKeepsInv(s: State)
    requires Inv(s)
    ensures Inv(Announce(s))
  {
    var t := Announce(s);
    assert t.slot == s.slot && PastWrite(t.helper) == PastWrite(s.helper);
  }

  lemma UnwindKeepsInv(s: State)
    requires Inv(s)
    ensures Inv(Unwind(s))
  {}

  lemma PutPacketKeepsInv(s: State)
    requires Inv(s)
    ensures Inv(PutPacket(s))
  {
    if s.core.WriteCopy? && s.core.k < |s.core.data| {
      CopyOneMore(Bytes(s.slot), s.core.data, s.core.k);
    }
  }

  lemma AcceptKeepsInv(s: State)
    requires Inv(s)
    ensures Inv(Accept(s))
  {
    var t := Accept(s);
    if s.core.WriteSetOccupied? {
      assert s.hist.lost == [];
      assert Outstanding(t.slot, t.helper) == [s.core.data];
    }
  }

  lemma SignalAndUnlockKeepsInv(s: State)
    requires Inv(s)
    ensures Inv(SignalAndUnlock(s))
  {
    var t := SignalAndUnlock(s);
    assert Outstanding(t.slot, t.helper) == Outstanding(s.slot, s.helper);
  }

  lemma PeekKeepsInv(s: State)
    requires Inv(s)
    ensures Inv(Peek(s))
  {}

  lemma DrainKeepsInv(s: State)
    requires Inv(s)
    ensures Inv(Drain(s))
  {
    assert Drain(s).slot == s.slot && Drain(s).helper == s.helper;
  }

  lemma StopThreadKeepsInv(s: State)
    requires Inv(s)
    ensures Inv(StopThread(s))
  {}

  lemma TearDownKeepsInv(s: State)
    requires Inv(s)
    ensures Inv(TearDown(s))
  {
    if TearingDown(s.core) {
      assert Outstanding(TearDown(s).slot, TearDown(s).helper) == [];
    }
  }

  lemma CoreBeginsKeepsInv(s: State, a: Action)
    requires Inv(s)
    ensures Inv(CoreBegins(s, a))
  {}

  lemma ByteReadKeepsInv(s: State)
    requires Inv(s) && s.helper.Sending?
    ensures Inv(Transfer(s, KernelReads))
  {
    if |s.helper.got| < s.helper.n {
      assert Transfer(s, KernelReads).helper.got == Bytes(s.slot)[..|s.helper.got| + 1];
    }
  }

  lemma CompletionKeepsInv(s: State, a: Action)
    requires Inv(s) && s.helper.Sending? && (a.HostAccepts? || a.CancelSent?)
    ensures Inv(Transfer(s, a))
  {
    var got := s.helper.got;
    if |got| == s.helper.n {
      assert Outstanding(s.slot, s.helper) == [got];
    }
  }

  lemma AbortKeepsInv(s: State, a: Action)
    requires Inv(s) && s.helper.Sending? && !a.KernelReads? && !a.HostAccepts? && !a.CancelSent?
    ensures Inv(Transfer(s, a))
  {}

  lemma TransferKeepsInv(s: State, a: Action)
    requires Inv(s) && s.helper.Sending?
    ensures Inv(Transfer(s, a))
  {
    if a.KernelReads? {
      ByteReadKeepsInv(s);
    } else if a.HostAccepts? || a.CancelSent? {
      CompletionKeepsInv(s, a);
    } else {
      AbortKeepsInv(s, a);
    }
  }

  lemma KernelActsKeepsInv(s: State, a: Action)
    requires Inv(s)
    ensures Inv(KernelActs(s, a))
  {
    if s.helper.Sending? {
      TransferKeepsInv(s, a);
    }
  }

  lemma HelperNextKeepsInv(s: State)
    requires Inv(s)
    ensures Inv(HelperNext(s))
  {
    AwaitPacketKeepsInv(s);
    OfferKeepsInv(s);
    FreeSlotKeepsInv(s);
    ReleaseKeepsInv(s);
    AnnounceKeepsInv(s);
    UnwindKeepsInv(s);
  }

  lemma CoreNextKeepsInv(s: State)
    requires Inv(s)
    ensures Inv(CoreNext(s))
  {
    PutPacketKeepsInv(s);
    AcceptKeepsInv(s);
    SignalAndUnlockKeepsInv(s);
    PeekKeepsInv(s);
    DrainKeepsInv(s);
    StopThreadKeepsInv(s);
    TearDownKeepsInv(s);
  }

  lemma StepKeepsInv(s: State, a: Action)
    requires Inv(s)
    ensures Inv(Step(s, a))
  {
    HelperNextKeepsInv(s);
    CoreNextKeepsInv(s);
    CoreBeginsKeepsInv(s, a);
    KernelActsKeepsInv(s, a);
  }

  lemma {:induction false} RunKeepsInv(s: State, actions: seq<Action>)
    requires Inv(s)
    ensures Inv(Run(s, actions))
    decreases |actions|
  {
    if actions != [] {
      StepKeepsInv(s, actions[0]);
      RunKeepsInv(Step(s, actions[0]), actions[1..]);
    }
  }

  lemma ReachableInv(max: nat, bound: bool, actions: seq<Action>)
    requires max < 0x1_0000
    ensures Inv(Run(Init(max, bound), actions))
  {
    RunKeepsInv(Init(max, bound), actions);
  }

  // ------------------------------------------------------------- the theorems

  /** In every interleaving the transfers FunctionFS completed are a prefix, packet
      by packet and byte by byte, of what `iface_write` accepted, at most one packet
      behind; only a stop can drop that one. */
  lemma InIsExact(max: nat, bound: bool, actions: seq<Action>)
    requires max < 0x1_0000
    ensures var s := Run(Init(max, bound), actions);
      && s.hist.toHost <= s.hist.accepted
      && |s.hist.accepted| <= |s.hist.toHost| + 1
      && s.hist.accepted == s.hist.toHost + Outstanding(s.slot, s.helper) + s.hist.lost
      && (s.hist.lost != [] ==> s.helper.Absent?)
  {
    ReachableInv(max, bound, actions);
    var s := Run(Init(max, bound), actions);
    assert s.hist.accepted == s.hist.toHost + (Outstanding(s.slot, s.helper) + s.hist.lost);
  }

  /** The unlocked read is safe: between the helper's unlock and the moment it
      clears `occupied`, no action of Core, of the kernel or of the helper changes a
      byte of the buffer, and none but the helper's own clearing changes the length. */
  lemma NothingDisturbsTheTransfer(max: nat, bound: bool, actions: seq<Action>, a: Action)
    requires max < 0x1_0000
    requires var s := Run(Init(max, bound), actions); s.helper.EnterWrite? || s.helper.Sending? || s.helper.Relock?
    ensures var s := Run(Init(max, bound), actions);
      var t := Step(s, a);
      t.slot == s.slot
  {
    ReachableInv(max, bound, actions);
    var s := Run(Init(max, bound), actions);
    if a.CoreStep? {
      CoreLeavesFullSlot(s);
    }
  }

  lemma CoreLeavesFullSlot(s: State)
    requires Inv(s) && s.slot.occupied && !s.helper.Absent?
    ensures CoreNext(s).slot == s.slot
  {}

  lemma StartForgets(max: nat, bound: bool, actions: seq<Action>, garbage: seq<byte>)
    requires max < 0x1_0000
    ensures var s := Run(Init(max, bound), actions);
      var starts := s.status.Running? && s.core.Idle? && s.helper.Absent? && |garbage| == s.max;
      Step(s, Start(garbage)) == if starts then Fresh(s.max, s.bound, garbage) else s
  {
    ReachableInv(max, bound, actions);
  }

  /** A step ends the process exactly when a FunctionFS write fails or is short, when the
      helper's write to its eventfd fails, which takes an overflow or a usb_init over it
      (`OnlyResetForgets`), or when Core drains an eventfd that a stop has closed since the
      poll (`StaleExactly`). No step touches a freed buffer. */
  lemma DiesExactlyWhen(max: nat, bound: bool, actions: seq<Action>, a: Action)
    requires max < 0x1_0000
    requires Run(Init(max, bound), actions).status.Running?
    ensures var s := Run(Init(max, bound), actions);
      && !Step(s, a).status.Fault?
      && (Step(s, a).status.Died? <==>
            || ((a.HostError? || a.ShortWrite?) && s.helper.Sending?)
            || (a.HelperStep? && s.helper.Notify? && !s.cancel && (Forgotten(s) || s.event.value >= EVENTFD_MAX))
            || (a.CoreStep? && s.core.Stale?))
  {
    ReachableInv(max, bound, actions);
    var s := Run(Init(max, bound), actions);
    StepKeepsInv(s, a);
    if a.CoreStep? {
      CoreDiesStale(s);
    } else if a.HelperStep? {
      HelperDiesNotifying(s);
    }
  }

  lemma HelperDiesNotifying(s: State)
    requires Inv(s) && s.status.Running?
    ensures HelperNext(s).status.Died? <==>
      s.helper.Notify? && !s.cancel && (Forgotten(s) || s.event.value >= EVENTFD_MAX)
  {}

  lemma CoreDiesStale(s: State)
    requires Inv(s) && s.status.Running?
    ensures CoreNext(s).status.Died? <==> s.core.Stale?
  {}

  /** A stop began between poll and drain, and the pass has not got over it yet. */
  predicate Late(c: CorePc) {
    c.Stale? || (Stopping(c) && c.late)
  }

  /** The same, told by the run: the latest stop that came after a poll was not followed
      by a pass that returned early. */
  predicate Reported(s: State, actions: seq<Action>, before: bool)
    decreases |actions|
  {
    if actions == [] then before
    else
      var a := actions[0];
      var after := (a.Stop? && s.core.Polled?) || (before && !(a.EarlyReturn? && s.core.Stale?));
      Reported(Step(s, a), actions[1..], after)
  }

  lemma StepIsLate(s: State, a: Action)
    requires Inv(s) && s.status.Running? && Step(s, a).status.Running?
    ensures Late(Step(s, a).core) <==>
      (a.Stop? && s.core.Polled?) || (Late(s.core) && !(a.EarlyReturn? && s.core.Stale?))
  {
    if a.HelperStep? {
      HelperLeavesCore(s);
    } else if a.CoreStep? {
      CoreStaysLate(s);
    }
  }

  lemma HelperLeavesCore(s: State)
    ensures HelperNext(s).core == s.core
  {}

  lemma CoreStaysLate(s: State)
    requires Inv(s) && CoreNext(s).status.Running?
    ensures Late(CoreNext(s).core) <==> Late(s.core)
  {
    if s.core.StopCancel? || s.core.StopJoin? {
      assert CoreNext(s) == StopThread(s);
    } else if TearingDown(s.core) {
      assert CoreNext(s) == TearDown(s);
    } else {
      CoreStaysAtWork(s);
    }
  }

  lemma CoreStaysAtWork(s: State)
    requires !Stopping(s.core) && CoreNext(s).status.Running?
    ensures !s.core.Stale? && !Late(CoreNext(s).core)
  {
    if s.core.WriteLock? || s.core.WriteTest? || s.core.WriteCopy? {
      assert CoreNext(s) == PutPacket(s);
    } else if s.core.WriteSetLength? || s.core.WriteSetOccupied? {
      assert CoreNext(s) == Accept(s);
    } else if s.core.WriteSignal? || s.core.WriteUnlock? {
      assert CoreNext(s) == SignalAndUnlock(s);
    } else if s.core.Polled? || s.core.Drained? || s.core.Stale? {
      assert CoreNext(s) == Drain(s);
    } else {
      assert CoreNext(s) == Peek(s);
    }
  }

  lemma {:induction false} RunIsLate(s: State, actions: seq<Action>, before: bool)
    requires Inv(s) && (Late(s.core) <==> before)
    ensures Run(s, actions).status.Running? ==> (Late(Run(s, actions).core) <==> Reported(s, actions, before))
    decreases |actions|
  {
    if actions != [] {
      var a := actions[0];
      var after := (a.Stop? && s.core.Polled?) || (before && !(a.EarlyReturn? && s.core.Stale?));
      if s.status.Running? && Step(s, a).status.Running? {
        StepIsLate(s, a);
        StepKeepsInv(s, a);
        RunIsLate(Step(s, a), actions[1..], after);
      } else {
        DeadStaysDead(Step(s, a), actions[1..]);
      }
    }
  }

  lemma {:induction false} DeadStaysDead(s: State, actions: seq<Action>)
    requires !s.status.Running?
    ensures Run(s, actions) == s
    decreases |actions|
  {
    if actions != [] {
      DeadStaysDead(s, actions[1..]);
    }
  }

  /** Core comes to drain an eventfd that is closed exactly when a stop came between the
      poll that reported it and the drain. */
  lemma StaleExactly(max: nat, bound: bool, actions: seq<Action>)
    requires max < 0x1_0000 && Run(Init(max, bound), actions).status.Running?
    ensures Late(Run(Init(max, bound), actions).core) <==> Reported(Init(max, bound), actions, false)
  {
    RunIsLate(Init(max, bound), actions, false);
  }

  predicate NoReset(actions: seq<Action>) {
    forall i :: 0 <= i < |actions| ==> !actions[i].Reset?
  }

  lemma StepRemembers(s: State, a: Action)
    requires Inv(s) && !Forgotten(s) && !a.Reset?
    ensures !Forgotten(Step(s, a))
  {
    if a.HelperStep? {
      HelperRemembers(s);
    } else if a.CoreStep? {
      CoreRemembers(s);
    }
  }

  lemma HelperRemembers(s: State)
    requires !Forgotten(s)
    ensures !Forgotten(HelperNext(s))
  {}

  lemma CoreRemembers(s: State)
    requires Inv(s) && !Forgotten(s)
    ensures !Forgotten(CoreNext(s))
  {}

  lemma {:induction false} RunRemembers(s: State, actions: seq<Action>)
    requires Inv(s) && !Forgotten(s) && NoReset(actions)
    ensures !Forgotten(Run(s, actions))
    decreases |actions|
  {
    if actions != [] {
      StepRemembers(s, actions[0]);
      StepKeepsInv(s, actions[0]);
      RunRemembers(Step(s, actions[0]), actions[1..]);
    }
  }

  /** Only usb_init over a running helper makes its eventfd fail. */
  lemma OnlyResetForgets(max: nat, bound: bool, actions: seq<Action>)
    requires max < 0x1_0000 && NoReset(actions)
    ensures !Forgotten(Run(Init(max, bound), actions))
  {
    RunRemembers(Init(max, bound), actions);
  }

  /** Every freed slot is announced to the writer. */
  lemma NoSilentRoom(max: nat, bound: bool, actions: seq<Action>)
    requires max < 0x1_0000
    ensures var s := Run(Init(max, bound), actions);
      !s.slot.occupied && s.bound && !Stopping(s.core) && !s.helper.Absent? ==>
        || s.announced
        || (s.event.Some? && s.event.value > 0)
        || s.helper.SignalConsumed? || s.helper.UnlockCleared? || s.helper.Notify?
        || s.core.Drained?
        || Forgotten(s)
  {
    ReachableInv(max, bound, actions);
  }

  // ------------------------------------------------- liveness and cancellation

  /** No lost wake-up and no deadlock. */
  lemma NoDeadlock(max: nat, bound: bool, actions: seq<Action>)
    requires max < 0x1_0000
    requires Run(Init(max, bound), actions).status.Running?
    ensures var s := Run(Init(max, bound), actions);
      && (s.helper.Asleep? ==> !s.slot.occupied || s.core.WriteSignal?)
      && (s.helper.Absent? || s.helper.Finished? || s.helper.FinishedSent? || s.helper.Sending? || s.helper.Asleep?
          || s.mutex.Core? || HelperNext(s) != s)
      && (s.core.Idle? || CoreNext(s) != s
          || HelperNext(s) != s || Step(s, CancelActs) != s)
  {
    ReachableInv(max, bound, actions);
    var s := Run(Init(max, bound), actions);
    HelperMoves(s);
    CoreMoves(s);
  }

  lemma HelperMoves(s: State)
    requires Inv(s) && s.status.Running?
    ensures || s.helper.Absent? || s.helper.Finished? || s.helper.FinishedSent? || s.helper.Sending? || s.helper.Asleep?
            || s.mutex.Core? || HelperNext(s).helper != s.helper || HelperNext(s).status != s.status
  {}

  lemma CoreMoves(s: State)
    requires Inv(s) && s.status.Running?
    ensures s.core.Idle? || CoreNext(s) != s || HelperNext(s) != s || Step(s, CancelActs) != s
  {
    var t := CoreNext(s);
    HelperMoves(s);
    if s.core.StopJoin? {
      if s.helper.Sending? || s.helper.Asleep? {
        assert Step(s, CancelActs).helper != s.helper;
      }
    } else if s.core.WriteLock? || s.core.PeekLock? {
      assert t.core != s.core || s.mutex.Helper?;
    } else if !s.core.Idle? {
      CoreLeavesPc(s);
    }
  }

  lemma CoreLeavesPc(s: State)
    requires Inv(s) && s.status.Running?
    requires !s.core.Idle? && !s.core.StopJoin? && !s.core.WriteLock? && !s.core.PeekLock?
    ensures CoreNext(s).core != s.core || CoreNext(s).status != s.status
  {}

  /** How far the helper is from handing an accepted packet to the kernel. */
  function OfferRank(h: HelperPc): nat {
    match h
    case SignalConsumed => 9
    case UnlockCleared => 8
    case Notify => 7
    case EnterLock => 6
    case Asleep => 6
    case Woken => 5
    case TestSlot => 4
    case TakeLength => 3
    case Unlock(_) => 2
    case EnterWrite(_) => 1
    case _ => 0
  }

  /** An accepted packet reaches the kernel within nine helper steps: each one
      brings it closer, unless Core holds the mutex, and nothing takes it back. */
  lemma AcceptedPacketIsOffered(s: State, a: Action)
    requires Inv(s) && s.status.Running? && !s.cancel && Outstanding(s.slot, s.helper) != []
    requires !s.helper.Sending? && !s.helper.Finished?
    ensures s.mutex.Core? || HelperNext(s).status.Died? || OfferRank(HelperNext(s).helper) < OfferRank(s.helper)
    ensures OfferRank(Step(s, a).helper) <= OfferRank(s.helper)
  {
    HelperNearsKernel(s);
    if a.CoreStep? {
      assert s.core.WriteSignal? || CoreNext(s).helper == s.helper;
    }
  }

  lemma HelperNearsKernel(s: State)
    requires Inv(s) && s.status.Running? && !s.cancel && Outstanding(s.slot, s.helper) != []
    requires !s.helper.Sending? && !s.helper.Finished?
    ensures s.mutex.Core? || HelperNext(s).status.Died? || OfferRank(HelperNext(s).helper) < OfferRank(s.helper)
    ensures OfferRank(HelperNext(s).helper) <= OfferRank(s.helper)
  {}

  /** An accepted packet waits: the helper is on its way to it. */
  predicate Waits(s: State) {
    s.status.Running? && !s.cancel && Outstanding(s.slot, s.helper) != [] && !s.helper.Sending? && !s.helper.Finished?
  }

  /** The packet reaches the kernel at some point of this run, or the wait is cut short by
      a stop or by the end of the process. */
  predicate ReachesKernel(s: State, actions: seq<Action>)
    decreases |actions|
  {
    s.helper.Sending? || !s.status.Running? || s.cancel
    || (actions != [] && ReachesKernel(Step(s, actions[0]), actions[1..]))
  }

  /** How many steps the helper takes in this run while Core does not hold the mutex. */
  function FreeSteps(s: State, actions: seq<Action>): nat
    decreases |actions|
  {
    if actions == [] then 0
    else (if actions[0].HelperStep? && !s.mutex.Core? then 1 else 0) + FreeSteps(Step(s, actions[0]), actions[1..])
  }

  lemma WaitGoesOn(s: State, a: Action)
    requires Inv(s) && Waits(s)
    ensures var t := Step(s, a); t.helper.Sending? || !t.status.Running? || t.cancel || Waits(t)
  {
    if a.CoreStep? {
      WaitOutlastsCore(s);
    } else if !a.HelperStep? {
      WaitOutlastsOthers(s, a);
    }
  }

  lemma WaitOutlastsCore(s: State)
    requires Inv(s) && Waits(s)
    ensures var t := CoreNext(s); !t.status.Running? || t.cancel || Waits(t)
  {
    CoreLeavesFullSlot(s);
  }

  lemma WaitOutlastsOthers(s: State, a: Action)
    requires Inv(s) && Waits(s) && !a.CoreStep? && !a.HelperStep?
    ensures var t := Step(s, a); t.helper.Sending? || !t.status.Running? || t.cancel || Waits(t)
  {}

  /** An accepted packet is handed to the kernel within nine steps that the helper takes
      while Core does not hold the mutex, whatever else happens in between. */
  lemma {:induction false} AcceptedPacketReachesKernel(s: State, actions: seq<Action>)
    requires Inv(s) && Waits(s)
    ensures ReachesKernel(s, actions) || FreeSteps(s, actions) < OfferRank(s.helper) <= 9
    ensures FreeSteps(s, actions) >= 9 ==> ReachesKernel(s, actions)
    decreases |actions|
  {
    if actions == [] {
      assert OfferRank(s.helper) > 0;
    } else {
      var a := actions[0];
      var t := Step(s, a);
      AcceptedPacketIsOffered(s, a);
      WaitGoesOn(s, a);
      if Waits(t) {
        StepKeepsInv(s, a);
        AcceptedPacketReachesKernel(t, actions[1..]);
      }
    }
  }

  /** Upper bound on the moves a cancelled helper still makes. */
  function Rank(h: HelperPc, max: nat): nat {
    match h
    case EnterWrite(_) => 1
    case Notify => 1
    case CancelUnlock => 1
    case CancelRelock => 2
    case Unlock(_) => 2
    case UnlockCleared => 2
    case TakeLength => 3
    case SignalConsumed => 3
    case ClearOccupied => 4
    case TestSlot => 4
    case ClearLength => 5
    case EnterLock => 5
    case Woken => 5
    case Relock => 6
    case Asleep => 6
    case Sending(n, got) => if |got| <= n then 7 + n - |got| else 7
    case _ => 0
  }

  lemma CancelledHelperWindsDown(s: State, a: Action)
    requires Inv(s) && s.cancel
    ensures var t := Step(s, a);
      t.helper == s.helper || Rank(t.helper, s.max) < Rank(s.helper, s.max) || t.helper.Absent?
  {
    if a.CoreStep? {
      assert CoreNext(s) == StopThread(s);
    } else if a.HelperStep? {
      CancelledStepWindsDown(s);
    }
  }

  lemma CancelledStepWindsDown(s: State)
    requires Inv(s) && s.cancel
    ensures var t := HelperNext(s); t.helper == s.helper || Rank(t.helper, s.max) < Rank(s.helper, s.max)
  {}

  lemma CancelledHelperMoves(s: State)
    requires Inv(s) && s.cancel && s.status.Running? && !s.helper.Finished? && !s.helper.FinishedSent?
    ensures var t := Step(s, if s.helper.Sending? || s.helper.Asleep? then CancelActs else HelperStep);
      t.cancel && t.status.Running? && Rank(t.helper, s.max) < Rank(s.helper, s.max)
  {
    var a := if s.helper.Sending? || s.helper.Asleep? then CancelActs else HelperStep;
    assert s.mutex.Free? || s.mutex.Helper?;
    CancelledHelperWindsDown(s, a);
    HelperMoves(s);
  }

  ghost predicate Joined(s: State, actions: seq<Action>) {
    var t := Run(s, actions);
    && |actions| <= Rank(s.helper, s.max) + 1 && t.status.Running?
    && t.helper.Absent? && t.core.StopCloseEvent? && t.mutex.Free? && (s.core.StopJoin? ==> t.core.late == s.core.late)
  }

  lemma RunFirst(s: State, a: Action, rest: seq<Action>)
    ensures Run(s, [a] + rest) == Run(Step(s, a), rest)
  {
    assert ([a] + rest)[1..] == rest;
  }

  lemma JoinsAfter(s: State, a: Action, rest: seq<Action>)
    requires Inv(s) && s.cancel && s.status.Running? && !s.helper.Finished? && !s.helper.FinishedSent?
    requires a == if s.helper.Sending? || s.helper.Asleep? then CancelActs else HelperStep
    requires Joined(Step(s, a), rest)
    ensures Joined(s, [a] + rest)
  {
    CancelledHelperMoves(s);
    MaxIsConstant(s, a);
    RunFirst(s, a, rest);
    if a.HelperStep? {
      HelperLeavesCore(s);
    }
  }

  lemma {:induction false} JoinReturns(s: State)
    requires Inv(s) && s.cancel && s.status.Running?
    ensures exists actions :: Joined(s, actions)
    decreases Rank(s.helper, s.max)
  {
    if s.helper.Finished? || s.helper.FinishedSent? {
      StepKeepsInv(s, CoreStep);
      RunFirst(s, CoreStep, []);
      assert Joined(s, [CoreStep] + []);
    } else {
      var a := if s.helper.Sending? || s.helper.Asleep? then CancelActs else HelperStep;
      CancelledHelperMoves(s);
      StepKeepsInv(s, a);
      MaxIsConstant(s, a);
      JoinReturns(Step(s, a));
      var rest :| Joined(Step(s, a), rest);
      JoinsAfter(s, a, rest);
    }
  }

  lemma MaxIsConstant(s: State, a: Action)
    ensures Step(s, a).max == s.max
  {
    if a.HelperStep? {
    } else if a.CoreStep? {
    }
  }
}
