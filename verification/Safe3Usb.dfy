/** The Safe 3 USB driver around the generation exchange: bus events, runtime
    records, ejection by KEY3, usb_init / usb_start / usb_stop / usb_deinit, and the
    endpoint accesses of Core. */
module Safe3Usb {
  import opened Common
  import opened Wire
  import opened EndpointMap
  import opened Generation
  import opened Ledger
  import opened GenerationFacts
  import Control

  const MAX_INTERFACES := 8

  datatype PortChange = Eject | Insert

  datatype Driver = Driver(
    synchronized: bool,          // usb_init's loop has been through the table once
    initialized: bool,
    started: bool,
    suspended: bool,
    ejected: bool,
    pressed: bool,               // g_reconnect_pressed, the last sampled KEY3 level
    activation: nat,
    ports: seq<PortChange>,      // every ejection and insertion so far
    link: Link)

  function Boot(pressed: bool): Driver {
    Driver(false, false, false, false, false, pressed, 0, [], Zeroed(Safe3))
  }

  function Exit(d: Driver): Driver {
    d.(link := d.link.(life := Exited))
  }

  // ------------------------------------------------------ usb_init ... usb_stop

  /** usb_init: `builderOk` and `registerOk` are the outcomes of code outside the model. */
  function Init(d: Driver, builderOk: bool, registerOk: bool): Driver {
    if d.initialized || !builderOk then d
    else
      var r := d.(synchronized := true, link := Reset(d.link, d.synchronized));
      if !registerOk then r else r.(initialized := true, link := SendConfiguration(r.link))
  }

  function Stop(d: Driver): Driver {
    if !d.started then d else d.(started := false, link := Halt(d.link))
  }

  function Deinit(d: Driver): Driver {
    if !d.initialized then d else Stop(d).(initialized := false)
  }

  /** usb_start: `same` says the caller asks for what is already being served. */
  function Start(d: Driver, same: bool, builderOk: bool, registerOk: bool, inbox: seq<Record>): Driver {
    if !d.initialized || (d.started && same) then d
    else
      var stopped := Stop(d);
      if !builderOk then stopped
      else
        var c := Configure(stopped.link, stopped.link.generation != 0, inbox);
        stopped.(link := c.link, started := c.verdict.Serving? && registerOk)
  }

  // ------------------------------------------------------------- runtime records

  /** What a bus event of this kind does to the endpoints. */
  function BusLink(l: Link, kind: byte): Link {
    if kind == 0 || kind == 1 || kind == 3 then Halt(l)
    else if kind == 2 then if l.enabled then l else StartThreads(l).(enabled := true)
    else if kind == 5 || kind == 6 then l
    else l.(life := Exited)
  }

  function BusEvent(d: Driver, r: Record): Driver {
    if !IsBusEvent(d.link, r) then Exit(d)
    else
      var kind, activation := r.body[0], Be64(r.body[1..]);
      if (kind == 5 || kind == 6) && activation != d.activation then Exit(d)
      else d.(activation := activation, suspended := kind == 5, link := BusLink(d.link, kind))
  }

  function RuntimeRecord(d: Driver, r: Record): Driver {
    var heard := d.(link := Heard(d.link, r));
    if r.kind == KIND_USB_BUS_EVENT then BusEvent(heard, r)
    else if r.kind == KIND_USB_CONTROL_REQUEST then
      if Control.WellFormed(r, d.link.generation) then
        heard.(link := Send(heard.link, KIND_USB_CONTROL_RESPONSE, r.requestId))
      else Exit(heard)
    else if IsRuntimeQuiesce(d.link, r) then
      var q := heard.(link := Quiesce(heard.link, r.requestId));
      if r.requestId == 0 then Exit(q) else q
    else Exit(heard)
  }

  // ------------------------------------------------------------------- KEY3

  /** One read of the KEY3 event stream. */
  datatype EdgeRead = Edge | Eintr | Eagain | Eof | Failed | Partial

  /** What is in front of the first read that ends the drain. */
  function DrainEnd(edges: seq<EdgeRead>): Option<EdgeRead> {
    if edges == [] then None
    else if edges[0].Edge? || edges[0].Eintr? then DrainEnd(edges[1..])
    else Some(edges[0])
  }

  /** What poll says about KEY3, the queued edges, and the level sampled after them. */
  datatype KeyPoll = KeyPoll(readable: bool, unexpected: bool, edges: seq<EdgeRead>, level: bool)

  /** refresh_reconnect_state; without an end to the edges it is still reading. */
  function Refresh(d: Driver, key: KeyPoll): Driver {
    match DrainEnd(key.edges)
    case None => d.(link := d.link.(life := Blocked))
    case Some(Eagain) => d.(pressed := key.level)
    case Some(_) => Exit(d)
  }

  /** The KEY3 part of a pass. */
  function Sense(d: Driver, key: KeyPoll): Driver {
    var e := if key.readable then Refresh(d, key) else d;
    if e.link.life.Alive? && key.unexpected then Exit(e) else e
  }

  /** unconfigure_until_quiesced */
  function Unconfigure(d: Driver, inbox: seq<Record>): Driver {
    var id := d.link.nextRequestId;
    var asked := SendConfiguration(d.link);
    if asked.life.Exited? then d.(link := asked)
    else if inbox == [] then d.(link := asked.(life := Blocked))
    else
      var heard := Heard(asked, inbox[0]);
      if IsRejection(asked, id, inbox[0]) then d.(link := heard)
      else if IsQuiesce(asked, id, inbox[0]) then
        d.(link := Quiesce(heard, id), ejected := true, ports := d.ports + [Eject])
      else Exit(d.(link := heard))
  }

  function Reinsert(d: Driver, inbox: seq<Record>): Driver {
    var c := Configure(d.link, false, inbox);
    if c.verdict.Serving? then d.(link := c.link, ejected := false, ports := d.ports + [Insert])
    else if c.verdict.Rejected? then Exit(d.(link := c.link))
    else d.(link := c.link)
  }

  /** The slots whose eventfd this pass may put in its poll set. */
  predicate Pollable(l: Link, polled: set<nat>) {
    forall k :: k in polled ==> l.enabled && k < |l.table| && l.table[k].eventOpen
  }

  /** The drain loop reads every eventfd that poll reported, open or not by now. */
  function Drain(d: Driver, polled: set<nat>): Driver {
    if forall k :: k in polled ==> k < |d.link.table| && d.link.table[k].eventOpen then d else Exit(d)
  }

  /** The last part of a pass: an ejection, an insertion, or the drain. */
  function AfterSense(d: Driver, polled: set<nat>, inbox: seq<Record>): Driver {
    if d.pressed && d.started && !d.ejected then Unconfigure(d, inbox)
    else if !d.pressed && d.started && d.ejected then Reinsert(d, inbox)
    else Drain(d, polled)
  }

  /** What a pass does after its control record. */
  function AfterRecord(d: Driver, key: KeyPoll, polled: set<nat>, inbox: seq<Record>): Driver {
    var e := Sense(d, key);
    if e.link.life.Alive? then AfterSense(e, polled, inbox) else e
  }

  /** service_controller, given what poll reported. */
  function Pass(d: Driver, record: Option<Record>, key: KeyPoll, polled: set<nat>, inbox: seq<Record>): Driver {
    var e := if record.Some? then RuntimeRecord(d, record.value) else d;
    if e.link.life.Alive? then AfterRecord(e, key, polled, inbox) else e
  }

  // --------------------------------------------------------- endpoint accesses

  function SetSlot(d: Driver, k: nat, e: Endpoint): Driver
    requires k < |d.link.table|
  {
    d.(link := d.link.(table := d.link.table[k := e]))
  }

  function OutSlot(iface: nat): nat {
    2 * iface
  }

  function InSlot(iface: nat): nat {
    2 * iface + 1
  }

  function IfaceRead(d: Driver, iface: nat): Driver {
    var k := OutSlot(iface);
    if k < |d.link.table| && d.link.table[k].occupied then
      SetSlot(d, k, d.link.table[k].(occupied := false, length := 0))
    else d
  }

  function IfaceWrite(d: Driver, iface: nat, length: nat): Driver {
    var k := InSlot(iface);
    if k >= |d.link.table| || !d.link.enabled || d.suspended || d.link.table[k].fd.None?
       || length > d.link.table[k].maxPacket || d.link.table[k].occupied then d
    else SetSlot(d, k, d.link.table[k].(occupied := true, length := length))
  }

  /** A helper thread fills an OUT slot or empties an IN slot. */
  function HelperActs(d: Driver, k: nat, length: nat): Driver {
    if k >= |d.link.table| || !d.link.table[k].running then d
    else
      var e := d.link.table[k];
      if k % 2 == 0 && !e.occupied && length <= e.maxPacket then
        SetSlot(d, k, e.(occupied := true, length := length))
      else if k % 2 == 1 && e.occupied then SetSlot(d, k, e.(occupied := false, length := 0))
      else d
  }

  // ------------------------------------------------------------------ all runs

  datatype Action =
    | CallInit(builderOk: bool, registerOk: bool)
    | CallDeinit
    | CallStart(same: bool, builderOk: bool, registerOk: bool, inbox: seq<Record>)
    | CallStop
    | CallPass(record: Option<Record>, key: KeyPoll, polled: set<nat>, inbox: seq<Record>)
    | CallRead(iface: nat)
    | CallWrite(iface: nat, length: nat)
    | Helper(k: nat, length: nat)

  function Step(d: Driver, a: Action): Driver {
    if !d.link.life.Alive? then d
    else
      match a
      case CallInit(builderOk, registerOk) => Init(d, builderOk, registerOk)
      case CallDeinit => Deinit(d)
      case CallStart(same, builderOk, registerOk, inbox) => Start(d, same, builderOk, registerOk, inbox)
      case CallStop => Stop(d)
      case CallPass(record, key, polled, inbox) =>
        if Pollable(d.link, polled) then Pass(d, record, key, polled, inbox) else d
      case CallRead(iface) => IfaceRead(d, iface)
      case CallWrite(iface, length) => IfaceWrite(d, iface, length)
      case Helper(k, length) => HelperActs(d, k, length)
  }

  // ------------------------------------------------------------------ invariants

  /** Ejections and insertions alternate, starting with an ejection, and `ejected` tells
      which came last. */
  predicate PortsOk(ports: seq<PortChange>, ejected: bool) {
    if ports == [] then !ejected
    else ports[|ports| - 1].Eject? == ejected && PortsOk(ports[..|ports| - 1], !ejected)
  }

  lemma PortsGrow(ports: seq<PortChange>, ejected: bool)
    ensures PortsOk(ports, ejected) ==> PortsOk(ports + [if ejected then Insert else Eject], !ejected)
  {
    assert (ports + [if ejected then Insert else Eject])[..|ports|] == ports;
  }

  /** What every run keeps, whoever calls what. */
  ghost predicate Ordered(d: Driver) {
    && d.link.worker.Safe3? && WellSized(d.link) && Orderly(d.link) && SpawnedOnce(d.link.log) && Tidy(d.link)
    && PortsOk(d.ports, d.ejected)
  }

  /** What a slot may look like, given `enabled`. */
  predicate SlotOk(k: nat, e: Endpoint, enabled: bool) {
    && e.count == 0 && e.threads == Threads(false, 0, 0)
    && (enabled ==> e.fd.Some? == e.running == e.eventOpen == e.buffers)
    && (!enabled ==> !e.running && !e.eventOpen && !e.buffers && !e.occupied && e.length == 0)
    && (e.occupied ==> e.buffers && e.length <= e.maxPacket)
    && (e.fd.Some? ==> k < 254 && e.address == AddressOf(k))
  }

  /** Descriptor, thread, eventfd and buffers come and go together. */
  predicate Consistent(l: Link) {
    && l.worker.Safe3? && WellSized(l)
    && forall k :: 0 <= k < |l.table| ==> SlotOk(k, l.table[k], l.enabled)
  }

  /** What runs keep once usb_init has been through the table, unless it finds helpers
      there later. */
  ghost predicate Inv(d: Driver) {
    d.synchronized && Ordered(d) && Consistent(d.link) && Conserved(d.link)
  }

  lemma BootIsOrdered(pressed: bool)
    ensures Ordered(Boot(pressed))
  {
    ZeroedIsOrderly(Safe3);
  }

  // --------------------------------------- what each handler does to the link

  /** From d to e the link was quiet and the port changes stay in order. */
  ghost predicate QuietStep(d: Driver, e: Driver) {
    && Quietly(d.link, e.link) && e.activation == d.activation && e.suspended == d.suspended
    && e.synchronized == d.synchronized
    && (PortsOk(d.ports, d.ejected) ==> PortsOk(e.ports, e.ejected))
  }

  lemma QuietStepKeepsOrder(d: Driver, e: Driver)
    requires Ordered(d) && QuietStep(d, e)
    ensures e.link.life.Exited? || (Ordered(e) && SameDrift(d.link, e.link))
  {}

  lemma QuietStepTrans(d: Driver, e: Driver, f: Driver)
    requires QuietStep(d, e) && QuietStep(e, f) && !e.link.life.Exited?
    ensures QuietStep(d, f)
  {
    QuietlyTrans(d.link, e.link, f.link);
  }

  lemma StopIsQuiet(d: Driver)
    ensures QuietStep(d, Stop(d))
  {
    HaltIsQuiet(d.link);
    StandingIsQuiet(d.link, d.link);
  }

  lemma StartLink(d: Driver, same: bool, builderOk: bool, registerOk: bool, inbox: seq<Record>)
    ensures var e := Start(d, same, builderOk, registerOk, inbox);
      var s := Stop(d);
      && e == e.(link := e.link) && (e == d || e == s || (e == s.(link := e.link, started := e.started)
                                                  && e.link == Configure(s.link, s.link.generation != 0, inbox).link))
  {}

  lemma StartIsQuiet(d: Driver, same: bool, builderOk: bool, registerOk: bool, inbox: seq<Record>)
    requires WellSized(d.link) && d.link.life.Alive?
    ensures QuietStep(d, Start(d, same, builderOk, registerOk, inbox))
  {
    StandingIsQuiet(d.link, d.link);
    StopIsQuiet(d);
    var s := Stop(d);
    ConfigureIsQuiet(s.link, s.link.generation != 0, inbox);
    QuietlyTrans(d.link, s.link, Configure(s.link, s.link.generation != 0, inbox).link);
    StartLink(d, same, builderOk, registerOk, inbox);
  }

  lemma ControlRecordLink(d: Driver, r: Record)
    requires r.kind == KIND_USB_CONTROL_REQUEST
    ensures RuntimeRecord(d, r) ==
      if Control.WellFormed(r, d.link.generation) then
        d.(link := Send(Heard(d.link, r), KIND_USB_CONTROL_RESPONSE, r.requestId))
      else Exit(d.(link := Heard(d.link, r)))
  {}

  lemma QuiesceRecordLink(d: Driver, r: Record)
    requires r.kind != KIND_USB_BUS_EVENT && r.kind != KIND_USB_CONTROL_REQUEST
    ensures var e := RuntimeRecord(d, r);
      if IsRuntimeQuiesce(d.link, r) && r.requestId != 0 then e == d.(link := Quiesce(Heard(d.link, r), r.requestId))
      else e == d.(link := e.link) && e.link.life.Exited?
  {}

  /** A record other than a bus event is answered, takes all down, or ends the process. */
  lemma OtherRecordLink(d: Driver, r: Record)
    requires r.kind != KIND_USB_BUS_EVENT
    ensures var e := RuntimeRecord(d, r);
      var heard := Heard(d.link, r);
      && e == d.(link := e.link)
      && (|| e.link.life.Exited?
          || (r.fds == [] && e.link == Send(heard, KIND_USB_CONTROL_RESPONSE, r.requestId))
          || (r.fds == [] && e.link == Quiesce(heard, r.requestId)))
  {
    if r.kind == KIND_USB_CONTROL_REQUEST {
      ControlRecordLink(d, r);
    } else {
      QuiesceRecordLink(d, r);
    }
  }

  lemma OtherRecordIsQuiet(d: Driver, r: Record)
    requires r.kind != KIND_USB_BUS_EVENT && !d.link.life.Exited?
    ensures QuietStep(d, RuntimeRecord(d, r))
  {
    OtherRecordLink(d, r);
    if r.fds == [] {
      AnswerIsQuiet(d.link, r);
    }
  }

  /** The things a bus event can do to the link. */
  lemma BusEventLink(d: Driver, r: Record)
    requires IsBusEvent(d.link, r)
    ensures var e := BusEvent(d, r);
      e.link.life.Exited? || e.link == BusLink(d.link, r.body[0])
  {}

  lemma BusEventFields(d: Driver, r: Record)
    requires IsBusEvent(d.link, r)
    ensures var e := BusEvent(d, r);
      e.link.life.Exited? ||
      (e.activation == Be64(r.body[1..]) && e.suspended == (r.body[0] == 5) && SameCalls(d, e) && SamePorts(d, e))
  {}

  /** The parts of the driver that no pass touches. */
  predicate SameCalls(d: Driver, e: Driver) {
    e.synchronized == d.synchronized && e.initialized == d.initialized && e.started == d.started
  }

  predicate SamePorts(d: Driver, e: Driver) {
    e.ejected == d.ejected && e.pressed == d.pressed && e.ports == d.ports
  }

  /** An ejection waits, is rejected, ends the process, or takes all down. */
  lemma UnconfigureLink(d: Driver, inbox: seq<Record>)
    requires d.link.life.Alive?
    ensures var e := Unconfigure(d, inbox);
      var asked, id := SendConfiguration(d.link), d.link.nextRequestId;
      || (e == d.(link := e.link) && e.link.life.Exited?)
      || (!asked.life.Exited? && e == d.(link := asked.(life := Blocked)))
      || (inbox != [] && !asked.life.Exited? && IsRejection(asked, id, inbox[0])
          && e == d.(link := Heard(asked, inbox[0])))
      || (inbox != [] && !asked.life.Exited? && IsQuiesce(asked, id, inbox[0])
          && e == d.(link := Quiesce(Heard(asked, inbox[0]), inbox[0].requestId), ejected := true,
                     ports := d.ports + [Eject]))
  {
    var id, asked := d.link.nextRequestId, SendConfiguration(d.link);
    if asked.life.Exited? {
    } else if inbox == [] {
    } else if IsRejection(asked, id, inbox[0]) {
    } else if IsQuiesce(asked, id, inbox[0]) {
    }
  }

  lemma AskedAnswersAreQuiet(l: Link, r: Record)
    requires r.fds == [] && r.kind != KIND_USB_BUS_EVENT && !SendConfiguration(l).life.Exited?
    ensures var asked := SendConfiguration(l);
      Quietly(l, Heard(asked, r)) && Quietly(l, Quiesce(Heard(asked, r), r.requestId))
  {
    var asked := SendConfiguration(l);
    AskIsQuiet(l);
    AnswerIsQuiet(asked, r);
    QuietlyTrans(l, asked, Heard(asked, r));
    QuietlyTrans(l, asked, Quiesce(Heard(asked, r), r.requestId));
  }

  lemma AskedWaitIsQuiet(l: Link)
    ensures Quietly(l, SendConfiguration(l).(life := Blocked)) || SendConfiguration(l).life.Exited?
  {
    var asked := SendConfiguration(l);
    AskIsQuiet(l);
    if !asked.life.Exited? {
      StandingIsQuiet(asked, asked.(life := Blocked));
      QuietlyTrans(l, asked, asked.(life := Blocked));
    }
  }

  lemma UnconfigureIsQuiet(d: Driver, inbox: seq<Record>)
    requires d.link.life.Alive? && !d.ejected
    ensures QuietStep(d, Unconfigure(d, inbox))
  {
    UnconfigureLink(d, inbox);
    PortsGrow(d.ports, false);
    AskedWaitIsQuiet(d.link);
    if inbox != [] && inbox[0].fds == [] && inbox[0].kind != KIND_USB_BUS_EVENT
       && !SendConfiguration(d.link).life.Exited?
    {
      AskedAnswersAreQuiet(d.link, inbox[0]);
    }
  }

  lemma ReinsertLink(d: Driver, inbox: seq<Record>)
    ensures var e := Reinsert(d, inbox);
      var l := Configure(d.link, false, inbox).link;
      || e == d.(link := l)
      || e == d.(link := l, ejected := false, ports := d.ports + [Insert])
      || (e == d.(link := e.link) && e.link.life.Exited?)
  {}

  lemma ReinsertIsQuiet(d: Driver, inbox: seq<Record>)
    requires WellSized(d.link) && d.link.life.Alive? && d.ejected
    ensures QuietStep(d, Reinsert(d, inbox))
  {
    ReinsertLink(d, inbox);
    PortsGrow(d.ports, true);
    ConfigureIsQuiet(d.link, false, inbox);
  }

  lemma RefreshLink(d: Driver, key: KeyPoll)
    ensures var e := Refresh(d, key);
      || e == d.(pressed := key.level)
      || e == d.(link := d.link.(life := Blocked))
      || e == d.(link := d.link.(life := Exited))
  {
    match DrainEnd(key.edges)
    case None =>
    case Some(Eagain) =>
    case Some(_) =>
  }

  lemma SenseLink(d: Driver, key: KeyPoll)
    ensures var e := Sense(d, key);
      && e == d.(link := e.link, pressed := e.pressed)
      && (e.link == d.link || e.link == d.link.(life := Blocked) || e.link == d.link.(life := Exited))
  {
    RefreshLink(d, key);
  }

  lemma SenseIsQuiet(d: Driver, key: KeyPoll)
    ensures QuietStep(d, Sense(d, key))
  {
    SenseLink(d, key);
    StandingIsQuiet(d.link, Sense(d, key).link);
  }

  lemma DrainIsQuiet(d: Driver, polled: set<nat>)
    ensures QuietStep(d, Drain(d, polled))
  {
    StandingIsQuiet(d.link, Drain(d, polled).link);
  }

  lemma AfterSenseIsQuiet(d: Driver, polled: set<nat>, inbox: seq<Record>)
    requires WellSized(d.link) && d.link.life.Alive?
    ensures QuietStep(d, AfterSense(d, polled, inbox))
  {
    DrainIsQuiet(d, polled);
    if d.ejected {
      ReinsertIsQuiet(d, inbox);
    } else {
      UnconfigureIsQuiet(d, inbox);
    }
  }

  lemma AfterRecordIsQuiet(d: Driver, key: KeyPoll, polled: set<nat>, inbox: seq<Record>)
    requires WellSized(d.link) && d.link.life.Alive?
    ensures QuietStep(d, AfterRecord(d, key, polled, inbox))
  {
    SenseLink(d, key);
    SenseIsQuiet(d, key);
    var e := Sense(d, key);
    if e.link.life.Alive? {
      AfterSenseIsQuiet(e, polled, inbox);
      QuietStepTrans(d, e, AfterSense(e, polled, inbox));
    }
  }

  /** Packets move in and out of slots without touching anything else. */
  lemma AccessIsCalm(d: Driver, k: nat, e: Endpoint)
    requires k < |d.link.table| && e.fd == d.link.table[k].fd && e.running == d.link.table[k].running
    requires e.threads == d.link.table[k].threads
    ensures Calm(d.link, SetSlot(d, k, e).link)
  {
    SameKeeps(d.link, SetSlot(d, k, e).link);
  }

  /** A read, a write or a helper's step changes at most one slot's packet. */
  lemma AccessShape(d: Driver, a: Action)
    requires d.link.life.Alive? && (a.CallRead? || a.CallWrite? || a.Helper?)
    ensures Step(d, a) == d || exists k, e :: Access(d, k, e) && Step(d, a) == SetSlot(d, k, e)
  {
    if Step(d, a) != d {
      var k := if a.CallRead? then OutSlot(a.iface) else if a.CallWrite? then InSlot(a.iface) else a.k;
      var e := d.link.table[k];
      if a.CallRead? || (a.Helper? && e.occupied) {
        assert Access(d, k, e.(occupied := false, length := 0));
      } else {
        assert Access(d, k, e.(occupied := true, length := a.length));
      }
    }
  }

  predicate Access(d: Driver, k: nat, e: Endpoint) {
    k < |d.link.table| && e == d.link.table[k].(occupied := e.occupied, length := e.length)
  }

  // --------------------------------------------------------- order over all runs

  lemma InitKeepsOrder(d: Driver, builderOk: bool, registerOk: bool)
    requires Ordered(d)
    ensures var e := Init(d, builderOk, registerOk);
      e.link.life.Exited? || (Ordered(e) && (d.synchronized ==> SameDrift(d.link, e.link)))
  {
    if !d.initialized && builderOk {
      ResetKeeps(d.link, d.synchronized);
      AskIsQuiet(Reset(d.link, d.synchronized));
      if d.synchronized && !SendConfiguration(Reset(d.link, true)).life.Exited? {
        KeepsTrans(d.link, Reset(d.link, true), SendConfiguration(Reset(d.link, true)));
      }
    }
  }

  lemma EnableKeepsOrder(d: Driver)
    requires Ordered(d) && !d.link.enabled
    ensures var m := StartThreads(d.link).(enabled := true);
      Ordered(d.(link := m)) && SameDrift(d.link, m)
  {
    StartKeeps(d.link);
    forall k | 0 <= k < |d.link.table| ensures Helpers(d.link.log, k) == 0 {
      OnceFlagCounts(d.link.log, k);
    }
  }

  lemma BusEventKeepsOrder(d: Driver, r: Record)
    requires Ordered(d) && IsBusEvent(d.link, r)
    ensures var e := BusEvent(d, r);
      e.link.life.Exited? || (Ordered(e) && SameDrift(d.link, e.link))
  {
    BusEventLink(d, r);
    BusEventFields(d, r);
    HaltIsQuiet(d.link);
    if !d.link.enabled {
      EnableKeepsOrder(d);
    }
  }

  lemma HeardKeepsOrder(d: Driver, r: Record)
    requires Ordered(d) && r.fds == []
    ensures Ordered(d.(link := Heard(d.link, r))) && SameDrift(d.link, Heard(d.link, r))
  {
    EventKeeps(d.link, Received(r));
    HelperStep(d.link.log, Received(r), 0);
  }

  lemma RecordKeepsOrder(d: Driver, r: Record)
    requires Ordered(d) && !d.link.life.Exited?
    ensures Onward(d, RuntimeRecord(d, r))
  {
    if r.kind != KIND_USB_BUS_EVENT {
      OtherRecordIsQuiet(d, r);
      QuietStepKeepsOrder(d, RuntimeRecord(d, r));
    } else if IsBusEvent(d.link, r) {
      HeardBusEventKeepsOrder(d, r);
    }
  }

  lemma HeardBusEventKeepsOrder(d: Driver, r: Record)
    requires Ordered(d) && IsBusEvent(d.link, r) && !d.link.life.Exited?
    ensures Onward(d, BusEvent(d.(link := Heard(d.link, r)), r))
  {
    var heard := d.(link := Heard(d.link, r));
    HeardKeepsOrder(d, r);
    BusEventGoesOn(heard, r);
    OnwardTrans(d, heard, BusEvent(heard, r));
  }

  lemma BusEventGoesOn(d: Driver, r: Record)
    requires Ordered(d) && IsBusEvent(d.link, r)
    ensures Onward(d, BusEvent(d, r))
  {
    BusEventKeepsOrder(d, r);
    BusEventFields(d, r);
  }

  lemma StepKeepsOrder(d: Driver, a: Action)
    requires Ordered(d) && d.link.life.Alive?
    ensures var e := Step(d, a);
      e.link.life.Exited? || (Ordered(e) && (d.synchronized ==> SameDrift(d.link, e.link)))
  {
    match a
    case CallInit(builderOk, registerOk) => InitKeepsOrder(d, builderOk, registerOk);
    case CallDeinit => StopKeepsOrder(d, false);
    case CallStop => StopKeepsOrder(d, d.initialized);
    case CallStart(same, builderOk, registerOk, inbox) =>
      StartIsQuiet(d, same, builderOk, registerOk, inbox);
      QuietStepKeepsOrder(d, Start(d, same, builderOk, registerOk, inbox));
    case CallPass(record, key, polled, inbox) => PassKeepsOrder(d, record, key, polled, inbox);
    case _ => AccessKeepsOrder(d, a);
  }

  lemma StopKeepsOrder(d: Driver, initialized: bool)
    requires Ordered(d) && !d.link.life.Exited?
    ensures var e := Stop(d).(initialized := initialized);
      e.link.life.Exited? || (Ordered(e) && SameDrift(d.link, e.link))
  {
    StopIsQuiet(d);
    QuietStepKeepsOrder(d, Stop(d));
  }

  lemma AccessKeepsOrder(d: Driver, a: Action)
    requires Ordered(d) && d.link.life.Alive? && (a.CallRead? || a.CallWrite? || a.Helper?)
    ensures Ordered(Step(d, a)) && SameDrift(d.link, Step(d, a).link)
  {
    AccessShape(d, a);
    if Step(d, a) != d {
      var k, e :| Access(d, k, e) && Step(d, a) == SetSlot(d, k, e);
      AccessIsCalm(d, k, e);
    }
  }

  /** From d to e all stays in order and no descriptor drifts. */
  ghost predicate Onward(d: Driver, e: Driver) {
    e.link.life.Exited? || (Ordered(e) && SameDrift(d.link, e.link) && e.synchronized == d.synchronized)
  }

  lemma OnwardTrans(d: Driver, e: Driver, f: Driver)
    requires Onward(d, e) && Onward(e, f) && !e.link.life.Exited?
    ensures Onward(d, f)
  {
    if !f.link.life.Exited? {
      SameDriftTrans(d.link, e.link, f.link);
    }
  }

  lemma AfterRecordGoesOn(d: Driver, key: KeyPoll, polled: set<nat>, inbox: seq<Record>)
    requires Ordered(d) && d.link.life.Alive?
    ensures Onward(d, AfterRecord(d, key, polled, inbox))
  {
    AfterRecordIsQuiet(d, key, polled, inbox);
    QuietStepKeepsOrder(d, AfterRecord(d, key, polled, inbox));
  }

  lemma PassKeepsOrder(d: Driver, record: Option<Record>, key: KeyPoll, polled: set<nat>, inbox: seq<Record>)
    requires Ordered(d) && d.link.life.Alive?
    ensures Onward(d, Pass(d, record, key, polled, inbox))
  {
    if record.None? {
      AfterRecordGoesOn(d, key, polled, inbox);
    } else {
      RecordKeepsOrder(d, record.value);
      var e := RuntimeRecord(d, record.value);
      if e.link.life.Alive? {
        AfterRecordGoesOn(e, key, polled, inbox);
        OnwardTrans(d, e, AfterRecord(e, key, polled, inbox));
      }
    }
  }

  // ---------------------------------------------------------------- consistency

  lemma HaltedIsConsistent(l: Link)
    requires Consistent(l)
    ensures Consistent(Halt(l))
  {}

  lemma ClosedIsConsistent(l: Link)
    requires Consistent(l)
    ensures Consistent(CloseEndpoints(l))
  {
    HaltedIsConsistent(l);
  }

  lemma StartedIsConsistent(l: Link)
    requires Consistent(l) && !l.enabled
    ensures Consistent(StartThreads(l).(enabled := true)) && StartThreads(l).life == l.life
  {}

  lemma InstalledIsConsistent(l: Link, r: Record)
    requires Consistent(l)
    ensures var i := Install(l, r);
      i.life.Exited? || (Consistent(i) && !i.enabled)
  {
    ClosedIsConsistent(l);
    if Measures(r.body, |r.fds|) && Placeable(Entries(r.body, |r.fds|), 8) {
      var es := Entries(r.body, |r.fds|);
      var c := CloseEndpoints(l);
      var i := Install(l, r);
      AddressesAndSlots(8);
      forall k | 0 <= k < |i.table| ensures SlotOk(k, i.table[k], false) {
        assert SlotOk(k, c.table[k], false);
        assert i.table[k] == FillSlot(c.table[k], es, r.fds, k);
      }
    }
  }

  lemma {:induction false} AwaitIsConsistent(l: Link, id: u32, replacement: bool, quiesced: bool, inbox: seq<Record>)
    requires Consistent(l)
    ensures var a := Await(l, id, replacement, quiesced, inbox).link;
      a.life.Exited? || Consistent(a)
    decreases |inbox|
  {
    if inbox != [] {
      var r := inbox[0];
      var heard := Heard(l, r);
      InstalledIsConsistent(heard, r);
      ClosedIsConsistent(heard);
      if replacement && !quiesced && IsQuiesce(l, id, r) && !IsRejection(l, id, r) {
        AwaitIsConsistent(Quiesce(heard, id), id, replacement, true, inbox[1..]);
      }
    }
  }

  lemma ConfigureIsConsistent(l: Link, replacement: bool, inbox: seq<Record>)
    requires Consistent(l)
    ensures var a := Configure(l, replacement, inbox).link;
      a.life.Exited? || Consistent(a)
  {
    var asked := SendConfiguration(l);
    if !asked.life.Exited? {
      AwaitIsConsistent(asked, l.nextRequestId, replacement, !replacement, inbox);
    }
  }

  lemma BusEventIsConsistent(d: Driver, r: Record)
    requires Consistent(d.link) && IsBusEvent(d.link, r)
    ensures var e := BusEvent(d, r);
      e.link.life.Exited? || Consistent(e.link)
  {
    BusEventLink(d, r);
    HaltedIsConsistent(d.link);
    if !d.link.enabled {
      StartedIsConsistent(d.link);
    }
  }

  lemma RecordIsConsistent(d: Driver, r: Record)
    requires Consistent(d.link)
    ensures var e := RuntimeRecord(d, r);
      e.link.life.Exited? || Consistent(e.link)
  {
    var heard := d.(link := Heard(d.link, r));
    if r.kind == KIND_USB_BUS_EVENT {
      if IsBusEvent(d.link, r) {
        BusEventIsConsistent(heard, r);
      }
    } else {
      OtherRecordLink(d, r);
      QuiesceIsConsistent(heard.link, r.requestId);
    }
  }

  predicate SameTable(l: Link, m: Link) {
    m.table == l.table && m.enabled == l.enabled && m.worker == l.worker
  }

  lemma SameTableIsConsistent(l: Link, m: Link)
    requires Consistent(l) && SameTable(l, m)
    ensures Consistent(m)
  {}

  lemma AskedIsConsistent(l: Link, m: Link, r: Record)
    requires Consistent(l)
    requires var asked := SendConfiguration(l); m == Heard(asked, r) || m == Quiesce(Heard(asked, r), r.requestId)
    ensures Consistent(m)
  {
    SameTableIsConsistent(l, Heard(SendConfiguration(l), r));
    QuiesceIsConsistent(Heard(SendConfiguration(l), r), r.requestId);
  }

  lemma UnconfigureIsConsistent(d: Driver, inbox: seq<Record>)
    requires Consistent(d.link) && d.link.life.Alive?
    ensures var e := Unconfigure(d, inbox);
      e.link.life.Exited? || Consistent(e.link)
  {
    UnconfigureLink(d, inbox);
    EjectingIsConsistent(d.link, Unconfigure(d, inbox).link, inbox);
  }

  /** What an ejection can make of the link. */
  predicate Ejecting(l: Link, m: Link, inbox: seq<Record>) {
    var asked := SendConfiguration(l);
    || m.life.Exited?
    || m == asked.(life := Blocked)
    || (inbox != [] && (m == Heard(asked, inbox[0]) || m == Quiesce(Heard(asked, inbox[0]), inbox[0].requestId)))
  }

  lemma EjectingIsConsistent(l: Link, m: Link, inbox: seq<Record>)
    requires Consistent(l) && Ejecting(l, m, inbox)
    ensures m.life.Exited? || Consistent(m)
  {
    if m == SendConfiguration(l).(life := Blocked) {
      SameTableIsConsistent(l, m);
    } else if !m.life.Exited? {
      AskedIsConsistent(l, m, inbox[0]);
    }
  }

  lemma QuiesceIsConsistent(l: Link, id: u32)
    requires Consistent(l)
    ensures Consistent(Quiesce(l, id))
  {
    ClosedIsConsistent(l);
  }

  lemma AfterSenseIsConsistent(d: Driver, polled: set<nat>, inbox: seq<Record>)
    requires Consistent(d.link) && d.link.life.Alive?
    ensures var e := AfterSense(d, polled, inbox);
      e.link.life.Exited? || Consistent(e.link)
  {
    UnconfigureIsConsistent(d, inbox);
    ConfigureIsConsistent(d.link, false, inbox);
    ReinsertLink(d, inbox);
  }

  lemma AfterRecordIsConsistent(d: Driver, key: KeyPoll, polled: set<nat>, inbox: seq<Record>)
    requires Consistent(d.link) && d.link.life.Alive?
    ensures var e := AfterRecord(d, key, polled, inbox);
      e.link.life.Exited? || Consistent(e.link)
  {
    SenseLink(d, key);
    var e := Sense(d, key);
    if e.link.life.Alive? {
      AfterSenseIsConsistent(e, polled, inbox);
    }
  }

  lemma PassIsConsistent(d: Driver, record: Option<Record>, key: KeyPoll, polled: set<nat>, inbox: seq<Record>)
    requires Consistent(d.link) && d.link.life.Alive?
    ensures var e := Pass(d, record, key, polled, inbox);
      e.link.life.Exited? || Consistent(e.link)
  {
    if record.None? {
      AfterRecordIsConsistent(d, key, polled, inbox);
    } else {
      RecordIsConsistent(d, record.value);
      var e := RuntimeRecord(d, record.value);
      if e.link.life.Alive? {
        AfterRecordIsConsistent(e, key, polled, inbox);
      }
    }
  }

  lemma ReadIsConsistent(d: Driver, iface: nat)
    requires Consistent(d.link)
    ensures Consistent(IfaceRead(d, iface).link)
  {}

  lemma WriteIsConsistent(d: Driver, iface: nat, length: nat)
    requires Consistent(d.link)
    ensures Consistent(IfaceWrite(d, iface, length).link)
  {}

  lemma HelperIsConsistent(d: Driver, k: nat, length: nat)
    requires Consistent(d.link)
    ensures Consistent(HelperActs(d, k, length).link)
  {
    if k < |d.link.table| {
      assert SlotOk(k, d.link.table[k], d.link.enabled);
    }
  }

  /** usb_init while helper threads run: usb_deinit leaves them behind when usb_start
      had failed after the generation was already serving. */
  predicate OrphansHelpers(d: Driver, a: Action) {
    a.CallInit? && a.builderOk && !d.initialized && exists k :: 0 <= k < |d.link.table| && d.link.table[k].running
  }

  lemma InitIsConsistentExactly(d: Driver, builderOk: bool, registerOk: bool)
    requires Consistent(d.link)
    ensures Consistent(Init(d, builderOk, registerOk).link) <==> !OrphansHelpers(d, CallInit(builderOk, registerOk))
  {
    if !d.initialized && builderOk {
      var t := Init(d, builderOk, registerOk).link.table;
      assert t == ResetTable(d.link.table);
      if k :| 0 <= k < |t| && d.link.table[k].running {
        assert SlotOk(k, d.link.table[k], d.link.enabled);
        assert !SlotOk(k, t[k], d.link.enabled);
      } else {
        forall k | 0 <= k < |t| ensures SlotOk(k, t[k], d.link.enabled) {
          assert SlotOk(k, d.link.table[k], d.link.enabled) && !d.link.table[k].running;
        }
      }
    }
  }

  lemma StepIsConsistent(d: Driver, a: Action)
    requires Consistent(d.link) && d.link.life.Alive? && !a.CallInit?
    ensures Step(d, a).link.life.Exited? || Consistent(Step(d, a).link)
  {
    match a
    case CallDeinit => HaltedIsConsistent(d.link);
    case CallStop => HaltedIsConsistent(d.link);
    case CallStart(same, builderOk, registerOk, inbox) =>
      HaltedIsConsistent(d.link);
      StartLink(d, same, builderOk, registerOk, inbox);
      ConfigureIsConsistent(Stop(d).link, d.link.generation != 0, inbox);
    case CallPass(record, key, polled, inbox) => PassIsConsistent(d, record, key, polled, inbox);
    case CallRead(iface) => ReadIsConsistent(d, iface);
    case CallWrite(iface, length) => WriteIsConsistent(d, iface, length);
    case Helper(k, length) => HelperIsConsistent(d, k, length);
  }

  lemma StepStaysSynchronized(d: Driver, a: Action)
    requires d.link.life.Alive?
    ensures var e := Step(d, a);
      !e.link.life.Exited? ==> (e.synchronized <==> d.synchronized || (a.CallInit? && a.builderOk && !d.initialized))
  {
    match a
    case CallStart(same, builderOk, registerOk, inbox) => StartLink(d, same, builderOk, registerOk, inbox);
    case CallPass(record, key, polled, inbox) => PassFields(d, record, key, polled, inbox);
    case CallRead(_) => AccessShape(d, a);
    case CallWrite(_, _) => AccessShape(d, a);
    case Helper(_, _) => AccessShape(d, a);
    case _ =>
  }

  lemma AfterRecordFields(d: Driver, key: KeyPoll, polled: set<nat>, inbox: seq<Record>)
    ensures SameCalls(d, AfterRecord(d, key, polled, inbox))
  {
    SenseLink(d, key);
    var e := Sense(d, key);
    if e.link.life.Alive? {
      AfterSenseFields(e, polled, inbox);
    }
  }

  lemma AfterSenseFields(d: Driver, polled: set<nat>, inbox: seq<Record>)
    requires d.link.life.Alive?
    ensures SameCalls(d, AfterSense(d, polled, inbox))
  {
    if d.pressed && d.started && !d.ejected {
      UnconfigureLink(d, inbox);
      assert AfterSense(d, polled, inbox) == Unconfigure(d, inbox);
    } else if !d.pressed && d.started && d.ejected {
      ReinsertLink(d, inbox);
      assert AfterSense(d, polled, inbox) == Reinsert(d, inbox);
    }
  }

  lemma PassFields(d: Driver, record: Option<Record>, key: KeyPoll, polled: set<nat>, inbox: seq<Record>)
    ensures var e := Pass(d, record, key, polled, inbox); e.link.life.Exited? || SameCalls(d, e)
  {
    var e := if record.Some? then RuntimeRecord(d, record.value) else d;
    if record.Some? {
      RecordFields(d, record.value);
    }
    AfterRecordFields(e, key, polled, inbox);
  }

  lemma RecordFields(d: Driver, r: Record)
    ensures var e := RuntimeRecord(d, r);
      e.link.life.Exited? || SameCalls(d, e)
  {
    if r.kind != KIND_USB_BUS_EVENT {
      OtherRecordLink(d, r);
    } else if IsBusEvent(d.link, r) {
      BusEventFields(d.(link := Heard(d.link, r)), r);
    }
  }

  /** Every call of the driver that does not end the process keeps all of this, except
      exactly usb_init over running helpers, which leaves a thread without its file. */
  lemma StepKeepsInv(d: Driver, a: Action)
    requires Inv(d) && d.link.life.Alive?
    ensures Step(d, a).link.life.Exited? || (Inv(Step(d, a)) <==> !OrphansHelpers(d, a))
    ensures OrphansHelpers(d, a) ==> !Consistent(Step(d, a).link)
  {
    StepKeepsOrder(d, a);
    StepStaysSynchronized(d, a);
    if a.CallInit? {
      InitIsConsistentExactly(d, a.builderOk, a.registerOk);
    } else {
      StepIsConsistent(d, a);
    }
    ConservedStays(d.link, Step(d, a).link);
  }

  lemma ConservedStays(l: Link, m: Link)
    requires Conserved(l)
    ensures SameDrift(l, m) ==> Conserved(m)
  {
    if SameDrift(l, m) {
      forall x: Fd ensures Drift(m, x) == 0 {
        assert Drift(m, x) == Drift(l, x);
      }
    }
  }
}
