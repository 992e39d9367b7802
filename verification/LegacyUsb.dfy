/** The legacy USB driver around the generation exchange: bus events, runtime records,
    usbInit and usbReconnect, and the passes of its event loop, which firmware's callbacks
    may enter again. Unlike the Safe 3 driver it may clear `usb_enabled` while its helper
    threads keep running. */
module LegacyUsb {
  import opened Common
  import opened Wire
  import opened EndpointMap
  import opened Generation
  import opened Ledger
  import opened GenerationFacts
  import Control

  datatype Driver = Driver(
    initialized: bool,          // endpoints_initialized
    activation: nat,
    suspended: bool,            // clock stopped and panel dark
    link: Link)

  function Boot(): Driver {
    Driver(false, 0, false, Zeroed(Legacy))
  }

  function Exit(d: Driver): Driver {
    d.(link := d.link.(life := Exited))
  }

  // ----------------------------------------------------- firmware's control engine

  /** One call of virtual_ep_setup. */
  datatype EpSetup = EpSetup(address: byte, transferType: byte, maxPacket: u16)

  /** What firmware makes of a control transfer: whether it stalls, and the endpoints it
      sets up on the way. */
  datatype Answer = Answer(stalled: bool, setups: seq<EpSetup>)

  /** virtual_ep_setup leaves EP0 alone and refuses numbers above the table. */
  function SetUpOne(l: Link, s: EpSetup): Link {
    if s.address % 128 == 0 then l
    else if SlotOf(s.address) >= |l.table| then l.(life := Exited)
    else
      var k := SlotOf(s.address);
      l.(table := l.table[k := l.table[k].(address := s.address, transferType := s.transferType,
                                           maxPacket := s.maxPacket)])
  }

  function SetUp(l: Link, setups: seq<EpSetup>): Link {
    if setups == [] then l
    else
      var m := SetUp(l, setups[..|setups| - 1]);
      if m.life.Exited? then m else SetUpOne(m, setups[|setups| - 1])
  }

  // ------------------------------------------------------------- runtime records

  /** What a bus event of this kind does to the endpoints. ENABLE first makes firmware
      answer SET_CONFIGURATION(1). */
  function BusLink(l: Link, kind: byte, answer: Answer): Link {
    if kind == 0 || kind == 1 || kind == 3 then Halt(l)
    else if kind == 2 then
      if l.enabled then l
      else
        var m := SetUp(l, answer.setups);
        if m.life.Exited? then m
        else if answer.stalled then m.(life := Exited)
        else StartThreads(m).(enabled := true)
    else if kind == 5 || kind == 6 then l
    else l.(life := Exited)
  }

  /** Suspend stops the clock, enable and resume start it, the other bus events do neither. */
  predicate SleepsAfter(suspended: bool, kind: byte) {
    if kind == 5 then true else if kind == 2 || kind == 6 then false else suspended
  }

  /** handle_usb_bus_event; what it does to time and panel beyond suspension is
      `Parking.Platform.HandleBusEvent`. */
  function BusEvent(d: Driver, r: Record, answer: Answer): Driver {
    if !IsBusEvent(d.link, r) then Exit(d)
    else
      var kind, activation := r.body[0], Be64(r.body[1..]);
      if (kind == 5 || kind == 6) && activation != d.activation then Exit(d)
      else d.(activation := activation, suspended := SleepsAfter(d.suspended, kind),
              link := BusLink(d.link, kind, answer))
  }

  function RuntimeRecord(d: Driver, r: Record, answer: Answer): Driver {
    var heard := d.(link := Heard(d.link, r));
    if r.kind == KIND_QUIESCE then
      if IsRuntimeQuiesce(d.link, r) then heard.(link := Quiesce(heard.link, r.requestId)) else Exit(heard)
    else if r.kind == KIND_USB_BUS_EVENT then BusEvent(heard, r, answer)
    else if r.kind == KIND_USB_CONTROL_REQUEST && Control.WellFormed(r, d.link.generation) then
      var m := SetUp(heard.link, answer.setups);
      heard.(link := if m.life.Exited? then m else Send(m, KIND_USB_CONTROL_RESPONSE, r.requestId))
    else Exit(heard)
  }

  // ------------------------------------------------------------------ the event loop

  /** What may happen while one OUT callback of firmware runs, after the callback has
      read the packet it was called for: firmware disconnects or loses an IN transfer,
      reconnects, polls and so enters the loop again, or a helper stores a packet or
      writes the eventfd for one it has stored. `orphan` says that this is not the helper
      that the slot's handle names. */
  datatype Effect =
    | Disconnects
    | Reconnects(inbox: seq<Record>)
    | Reenters(record: Option<Record>, answer: Answer, hits: seq<Hit>)
    | Stores(slot: nat, orphan: bool, empty: bool)
    | Notifies(slot: nat, orphan: bool)

  /** One eventfd that poll reported, and what happens during its callback. */
  datatype Hit = Hit(slot: nat, effects: seq<Effect>)

  /** A disconnect, a lost IN transfer or an error on an eventfd clears usb_enabled and
      nothing else. */
  function Drop(d: Driver): Driver {
    d.(link := d.link.(enabled := false))
  }

  function Reconnect(d: Driver, inbox: seq<Record>): Driver {
    d.(link := Configure(d.link, true, inbox).link)
  }

  function SetSlot(d: Driver, k: nat, e: Endpoint): Driver
    requires k < |d.link.table|
  {
    d.(link := d.link.(table := d.link.table[k := e]))
  }

  /** Such a helper of the slot has nothing stored yet. */
  predicate CanStore(e: Endpoint, orphan: bool) {
    if orphan then e.threads.late < e.threads.orphans else e.running && !e.threads.pending
  }

  predicate CanNotify(e: Endpoint, orphan: bool) {
    if orphan then e.threads.late > 0 else e.threads.pending
  }

  function Stored(e: Endpoint, orphan: bool): Endpoint {
    if !CanStore(e, orphan) then e
    else if orphan then e.(occupied := true, threads := e.threads.(late := e.threads.late + 1))
    else e.(occupied := true, threads := e.threads.(pending := true))
  }

  function Notified(e: Endpoint, orphan: bool): Endpoint {
    if !CanNotify(e, orphan) then e
    else if orphan then e.(count := e.count + 1, threads := e.threads.(late := e.threads.late - 1))
    else e.(count := e.count + 1, threads := e.threads.(pending := false))
  }

  /** A helper has read a packet and stores it. On a full slot it ends the process, and so
      does a copy into freed memory. `LegacyOut` has the steps. */
  function Store(d: Driver, k: nat, orphan: bool, empty: bool): Driver {
    if k >= |d.link.table| || !CanStore(d.link.table[k], orphan) then d
    else if d.link.table[k].occupied || (!d.link.table[k].buffers && !empty) then Exit(d)
    else SetSlot(d, k, Stored(d.link.table[k], orphan))
  }

  /** It writes 1 to the eventfd; a closed one ends the process. */
  function Announce(d: Driver, k: nat, orphan: bool): Driver {
    if k >= |d.link.table| || !CanNotify(d.link.table[k], orphan) then d
    else if !d.link.table[k].eventOpen then Exit(d)
    else SetSlot(d, k, Notified(d.link.table[k], orphan))
  }

  /** A notification that the loop can read: the eventfd is open and holds exactly 1. */
  predicate Fresh(l: Link, k: nat) {
    k < |l.table| && l.table[k].eventOpen && l.table[k].count == 1
  }

  /** The notification is read and firmware takes the packet. */
  function Take(d: Driver, k: nat): Driver
    requires k < |d.link.table|
  {
    SetSlot(d, k, d.link.table[k].(occupied := false, count := 0))
  }

  /** The eventfds poll may report, in the order of the loop: only while enabled, only
      open ones, and none that holds nothing. */
  predicate Pollable(enabled: bool, t: seq<Endpoint>, hits: seq<Hit>) {
    && (forall i :: 0 <= i < |hits| ==>
          enabled && hits[i].slot < |t| && t[hits[i].slot].eventOpen && t[hits[i].slot].count > 0)
    && (forall i, j :: 0 <= i < j < |hits| ==> hits[i].slot < hits[j].slot)
  }

  /** The loop over the reported eventfds. Reading one that is closed, empty or holds
      more than 1 ends the process. */
  function Drain(d: Driver, hits: seq<Hit>): Driver
    decreases hits, 0
  {
    if hits == [] || !d.link.enabled || !d.link.life.Alive? then d
    else if !Fresh(d.link, hits[0].slot) then Exit(d)
    else Drain(Effects(Take(d, hits[0].slot), hits[0].effects), hits[1..])
  }

  function Effects(d: Driver, effects: seq<Effect>): Driver
    decreases effects, 0
  {
    if effects == [] || !d.link.life.Alive? then d else Effects(Apply(d, effects[0]), effects[1..])
  }

  function Apply(d: Driver, e: Effect): Driver
    decreases e, 0
  {
    match e
    case Disconnects => Drop(d)
    case Reconnects(inbox) => Reconnect(d, inbox)
    case Stores(k, orphan, empty) => Store(d, k, orphan, empty)
    case Notifies(k, orphan) => Announce(d, k, orphan)
    case Reenters(record, answer, hits) => Pass(d, record, answer, hits)
  }

  /** service_virtual_usb, given what poll reported. */
  function Pass(d: Driver, record: Option<Record>, answer: Answer, hits: seq<Hit>): Driver
    decreases hits, 1
  {
    var e := if record.Some? then RuntimeRecord(d, record.value, answer) else d;
    if Pollable(d.link.enabled, d.link.table, hits) then Drain(e, hits) else e
  }

  /** usbInit: virtual_init goes through the table, then the first configuration, whose
      rejection ends the process. */
  function Init(d: Driver, inbox: seq<Record>): Driver {
    var c := Configure(Reset(d.link, d.initialized), false, inbox);
    var e := d.(initialized := true, link := c.link);
    if c.verdict.Rejected? then Exit(e) else e
  }

  /** usbInit, or anything that may also happen during a callback: a pass of the loop,
      usbReconnect, a disconnect, a helper's transfer. */
  datatype Action = CallInit(inbox: seq<Record>) | Happens(effect: Effect)

  function Step(d: Driver, a: Action): Driver {
    if !d.link.life.Alive? then d
    else
      match a
      case CallInit(inbox) => Init(d, inbox)
      case Happens(e) => Apply(d, e)
  }

  function Run(d: Driver, actions: seq<Action>): Driver {
    if actions == [] then d else Step(Run(d, actions[..|actions| - 1]), actions[|actions| - 1])
  }

  // -------------------------------------------------------------- starting helpers

  /** ENABLE is about to start the helpers. */
  predicate Enables(d: Driver, r: Record, answer: Answer) {
    r.kind == KIND_USB_BUS_EVENT && IsBusEvent(d.link, r) && r.body[0] == 2 && !d.link.enabled && !answer.stalled
  }

  /** Helper threads run although the bus is not enabled. */
  predicate Lingers(l: Link) {
    !l.enabled && exists k :: 0 <= k < |l.table| && l.table[k].running
  }

  /** An ENABLE handled in this pass, at whatever depth, finds helpers running with the
      bus not enabled. */
  predicate PassDoubles(d: Driver, record: Option<Record>, answer: Answer, hits: seq<Hit>)
    decreases hits, 1
  {
    || (record.Some? && Enables(d, record.value, answer) && Lingers(d.link))
    || (Pollable(d.link.enabled, d.link.table, hits)
        && DrainDoubles(if record.Some? then RuntimeRecord(d, record.value, answer) else d, hits))
  }

  predicate DrainDoubles(d: Driver, hits: seq<Hit>)
    decreases hits, 0
  {
    hits != [] && d.link.enabled && d.link.life.Alive? && Fresh(d.link, hits[0].slot) &&
    (var t := Take(d, hits[0].slot);
     EffectsDouble(t, hits[0].effects) || DrainDoubles(Effects(t, hits[0].effects), hits[1..]))
  }

  predicate EffectsDouble(d: Driver, effects: seq<Effect>)
    decreases effects, 0
  {
    effects != [] && d.link.life.Alive? &&
    (EffectDoubles(d, effects[0]) || EffectsDouble(Apply(d, effects[0]), effects[1..]))
  }

  predicate EffectDoubles(d: Driver, e: Effect)
    decreases e, 0
  {
    e.Reenters? && PassDoubles(d, e.record, e.answer, e.hits)
  }

  predicate DoubleStarts(d: Driver, a: Action) {
    a.Happens? && EffectDoubles(d, a.effect)
  }

  // ---------------------------------------------------------------- what slots keep

  /** The slot's one packet has one notification, written or about to be. */
  predicate Squared(e: Endpoint) {
    e.count + (if e.threads.pending then 1 else 0) == (if e.occupied then 1 else 0) && (e.occupied ==> e.running)
  }

  /** Thread flag, eventfd and buffers come and go together over an open OUT file, and
      unless helpers were started over each other, packet and notification go together. */
  predicate SlotOk(k: nat, e: Endpoint, enabled: bool) {
    && e.running == e.eventOpen == e.buffers
    && (e.running ==> e.fd.Some? && Threaded(Legacy, k))
    && (enabled && e.fd.Some? && Threaded(Legacy, k) ==> e.running)
    && (e.fd.Some? ==> k < 254 && e.address == AddressOf(k))
    && (e.threads.pending ==> e.running) && e.threads.late <= e.threads.orphans && (!e.eventOpen ==> e.count == 0)
    && (!Threaded(Legacy, k) ==> e.threads == Threads(false, 0, 0))
    && (e.threads.orphans == 0 ==> Squared(e))
  }

  predicate Consistent(l: Link) {
    && l.worker.Legacy? && WellSized(l)
    && forall k :: 0 <= k < |l.table| ==> SlotOk(k, l.table[k], l.enabled)
  }

  ghost predicate Good(l: Link) {
    Consistent(l) && Orderly(l)
  }

  /** `activation` is that of the last bus event, the bus is enabled only while the last one
      other than suspend and resume was ENABLE, and the worker is suspended exactly when the
      last one of enable, suspend and resume was SUSPEND. */
  predicate Follows(d: Driver) {
    && d.activation == (match LastBus(d.link.log) case None => 0 case Some(body) => Be64(body[1..]))
    && (d.link.enabled ==> LastPower(d.link.log) == Some(2))
    && (d.suspended <==> LastSleep(d.link.log) == Some(5))
  }
}
