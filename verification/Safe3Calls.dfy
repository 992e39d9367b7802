/** What single calls of Core and single passes of its controller come to in the Safe 3
    driver, in terms of records, descriptors and slots. */
module Safe3Calls {
  import opened Common
  import opened Wire
  import opened Generation
  import opened GenerationFacts
  import opened Safe3Usb
  import Control

  // ------------------------------------------------------------ usb_start, usb_deinit

  /** When usb_start does not get as far as asking the supervisor: it changes nothing before
      usb_init or when that is being served already, and if its personality cannot be built it
      has stopped the device. */
  lemma StartAsksExactly(d: Driver, same: bool, builderOk: bool, registerOk: bool, inbox: seq<Record>)
    requires d.link.life.Alive?
    ensures var e := Step(d, CallStart(same, builderOk, registerOk, inbox));
      && (!d.initialized || (d.started && same) ==> e == d)
      && (d.initialized && !(d.started && same) && !builderOk ==>
            !e.started && e.initialized && e.link == if d.started then Halt(d.link) else d.link)
  {}

  /** usb_start of an initialised device that is not already serving what it is asked for. The
      first one is served by good ENDPOINTS alone, every later one, when there is a generation
      to retire, by QUIESCE and good ENDPOINTS; the device is started exactly when that has
      happened and its handles could be registered. */
  lemma StartOutcome(d: Driver, registerOk: bool, inbox: seq<Record>)
    requires d.link.life.Alive? && d.initialized && !d.started && d.link.nextRequestId != 0
    ensures var e := Step(d, CallStart(false, true, registerOk, inbox));
      var retires := d.link.generation != 0;
      var served := if retires then Replaces(d.link, inbox)
                    else inbox != [] && GoodEndpoints(d.link, d.link.nextRequestId, inbox[0]);
      var rejected := if retires then RejectsReplacement(d.link, inbox)
                      else inbox != [] && IsRejection(d.link, d.link.nextRequestId, inbox[0]);
      && (e.link.life.Alive? <==> served || rejected)
      && (e.link.life.Blocked? <==> LeavesOpen(d.link, retires, inbox))
      && (e.started <==> served && registerOk)
      && (served ==> !e.link.enabled && e.link.generation == inbox[if retires then 1 else 0].generation)
  {
    StartLink(d, false, true, registerOk, inbox);
    if d.link.generation != 0 {
      ReplacementOutcome(d.link, inbox);
      if Replaces(d.link, inbox) {
        ReplacementIsDisabled(d.link, inbox);
      }
    } else {
      FirstOutcome(d.link, inbox);
      if Configure(d.link, false, inbox).verdict.Serving? {
        FirstConfigurationTrace(d.link, inbox);
        QuiescedAwait(SendConfiguration(d.link), d.link.nextRequestId, false, inbox);
      }
    }
  }

  lemma ReplacementIsDisabled(l: Link, inbox: seq<Record>)
    requires l.life.Alive? && Configure(l, true, inbox).verdict.Serving?
    ensures !Configure(l, true, inbox).link.enabled
    ensures |inbox| >= 2 && Configure(l, true, inbox).link.generation == inbox[1].generation
  {
    var id, asked := l.nextRequestId, SendConfiguration(l);
    ReplacementTrace(l, inbox);
    ReplacementAwait(asked, id, inbox);
    QuiescedAwait(Quiesce(Heard(asked, inbox[0]), id), id, true, inbox[1..]);
  }

  /** A device that is started again is stopped first: what comes of it is what would come of
      starting the stopped device. */
  lemma RestartStopsFirst(d: Driver, registerOk: bool, inbox: seq<Record>)
    requires d.link.life.Alive? && d.initialized && d.started
    ensures Step(d, CallStart(false, true, registerOk, inbox))
         == Step(d.(started := false, link := Halt(d.link)), CallStart(false, true, registerOk, inbox))
  {}

  /** No thread, eventfd, buffer or packet is left in the table; the files are. */
  predicate Stilled(l: Link, m: Link) {
    && |m.table| == |l.table| && !m.enabled && m.generation == l.generation && m.life == l.life
    && forall k :: 0 <= k < |m.table| ==>
         && m.table[k].fd == l.table[k].fd
         && !m.table[k].running && !m.table[k].eventOpen && !m.table[k].buffers && !m.table[k].occupied
  }

  lemma HaltStills(l: Link)
    requires Consistent(l)
    ensures Stilled(l, Halt(l)) && Halt(l).log == l.log + JoinEvents(Safe3, l.table)
  {
    forall k | 0 <= k < |l.table|
      ensures var e := StopSlot(Safe3, k, l.table[k]);
        e.fd == l.table[k].fd && !e.running && !e.eventOpen && !e.buffers && !e.occupied
    {
      assert SlotOk(k, l.table[k], l.enabled);
    }
  }

  /** usb_deinit and usb_stop leave a started device without a running helper and with the bus
      disabled, every helper joined and every file kept. */
  lemma DeinitStops(d: Driver)
    requires Inv(d) && d.link.life.Alive?
    ensures var e := Step(d, CallStop);
      && !e.started && e.initialized == d.initialized
      && (if d.started then Stilled(d.link, e.link) && e.link.log == d.link.log + JoinEvents(Safe3, d.link.table)
          else e == d)
    ensures var e := Step(d, CallDeinit);
      && !e.initialized && (d.initialized ==> !e.started)
      && (d.initialized && d.started ==>
            Stilled(d.link, e.link) && e.link.log == d.link.log + JoinEvents(Safe3, d.link.table))
      && (!(d.initialized && d.started) ==> e.link == d.link && e.started == d.started)
  {
    HaltStills(d.link);
  }

  /** usb_init asks for a first configuration exactly once: unless it is done already, its
      personality cannot be built or its handle not be registered. */
  lemma InitAsksExactly(d: Driver, builderOk: bool, registerOk: bool)
    requires d.link.life.Alive? && d.link.nextRequestId != 0
    ensures var e := Step(d, CallInit(builderOk, registerOk));
      var forgotten := if d.synchronized then ForgetEvents(d.link.table) else [];
      && (e.initialized <==> d.initialized || (builderOk && registerOk))
      && (d.initialized || !builderOk ==> e == d)
      && (!d.initialized && builderOk ==>
            && forall k :: 0 <= k < |e.link.table| ==> e.link.table[k].fd.None? && !e.link.table[k].eventOpen)
      && (!d.initialized && builderOk ==>
            e.link.log == d.link.log + forgotten
              + if registerOk then [Sent(KIND_CONFIGURE, d.link.generation, d.link.nextRequestId)] else [])
  {
    assert forall k :: 0 <= k < |d.link.table| ==>
      ResetTable(d.link.table)[k].fd.None? && !ResetTable(d.link.table)[k].eventOpen;
  }

  // ------------------------------------------------------------------------- KEY3

  /** The queued edges end where a read would block. */
  predicate Drains(edges: seq<EdgeRead>) {
    DrainEnd(edges) == Some(Eagain)
  }

  /** The read that ends the drain is the first one that is neither an edge nor interrupted. */
  predicate EndsWith(edges: seq<EdgeRead>, i: nat, end: EdgeRead) {
    && i < |edges| && edges[i] == end && !end.Edge? && !end.Eintr?
    && forall j :: 0 <= j < i ==> edges[j].Edge? || edges[j].Eintr?
  }

  lemma {:induction false} DrainEndsFirst(edges: seq<EdgeRead>, i: nat)
    requires i < |edges| && !edges[i].Edge? && !edges[i].Eintr?
    requires forall j :: 0 <= j < i ==> edges[j].Edge? || edges[j].Eintr?
    ensures DrainEnd(edges) == Some(edges[i])
  {
    if i > 0 {
      DrainEndsFirst(edges[1..], i - 1);
    }
  }

  lemma {:induction false} EdgesOnlyBlock(edges: seq<EdgeRead>)
    requires forall j :: 0 <= j < |edges| ==> edges[j].Edge? || edges[j].Eintr?
    ensures DrainEnd(edges) == None
  {
    if edges != [] {
      EdgesOnlyBlock(edges[1..]);
    }
  }

  /** refresh_reconnect_state reads edges, however many, until a read would block, and then
      samples the level; a signal does not end the drain, a closed, failing or partial read
      ends the process, and without any of these it is still reading. */
  lemma KeyIsReadToTheEnd(d: Driver, key: KeyPoll, i: nat, end: EdgeRead)
    ensures EndsWith(key.edges, i, end) ==>
      Refresh(d, key) == if end.Eagain? then d.(pressed := key.level) else Exit(d)
    ensures (forall j :: 0 <= j < |key.edges| ==> key.edges[j].Edge? || key.edges[j].Eintr?) ==>
      Refresh(d, key) == d.(link := d.link.(life := Blocked))
  {
    if EndsWith(key.edges, i, end) {
      DrainEndsFirst(key.edges, i);
    }
    if forall j :: 0 <= j < |key.edges| ==> key.edges[j].Edge? || key.edges[j].Eintr? {
      EdgesOnlyBlock(key.edges);
    }
  }

  /** A pass that samples KEY3 as pressed while started asks for an ejection. QUIESCE for that
      request takes every endpoint down, is acknowledged and ejects; a rejection leaves
      everything as it was; anything else ends the process. */
  lemma PressEjects(d: Driver, edges: seq<EdgeRead>, polled: set<nat>, inbox: seq<Record>)
    requires d.link.life.Alive? && d.started && !d.ejected && Drains(edges) && Pollable(d.link, polled)
    requires d.link.nextRequestId != 0 && inbox != []
    ensures var e := Step(d, CallPass(None, KeyPoll(true, false, edges, true), polled, inbox));
      var id, generation, r := d.link.nextRequestId, d.link.generation, inbox[0];
      && (e.link.life.Alive? <==> IsQuiesce(d.link, id, r) || IsRejection(d.link, id, r))
      && (e.link.life.Alive? ==> (e.ejected <==> IsQuiesce(d.link, id, r)))
      && (IsQuiesce(d.link, id, r) ==>
            && e.link.log == d.link.log + [Sent(KIND_CONFIGURE, generation, id), Received(r)] + Takedown(d.link)
                 + [Sent(KIND_QUIESCED, generation, id)]
            && !e.link.enabled && forall k :: 0 <= k < |e.link.table| ==> e.link.table[k].fd.None?)
      && (IsRejection(d.link, id, r) ==>
            e.link.table == d.link.table && e.link.enabled == d.link.enabled && e.link.generation == generation)
  {
    var pressed := d.(pressed := true);
    var key := KeyPoll(true, false, edges, true);
    assert Sense(d, key) == pressed;
    assert Step(d, CallPass(None, key, polled, inbox)) == Unconfigure(pressed, inbox);
    var heard := Heard(SendConfiguration(d.link), inbox[0]);
    QuiesceLog(heard, d.link.nextRequestId);
    assert Takedown(heard) == Takedown(d.link);
    assert heard.log
        == d.link.log + [Sent(KIND_CONFIGURE, d.link.generation, d.link.nextRequestId), Received(inbox[0])];
  }

  /** A pass that samples KEY3 as released while ejected asks for a new configuration, to which
      no generation is left to retire. Good ENDPOINTS put it in service and end the ejection;
      a rejection and everything else ends the process. */
  lemma ReleaseInserts(d: Driver, edges: seq<EdgeRead>, polled: set<nat>, inbox: seq<Record>)
    requires d.link.life.Alive? && d.started && d.ejected && Drains(edges) && Pollable(d.link, polled)
    requires d.link.nextRequestId != 0 && inbox != []
    ensures var e := Step(d, CallPass(None, KeyPoll(true, false, edges, false), polled, inbox));
      var id, r := d.link.nextRequestId, inbox[0];
      && (e.link.life.Alive? <==> GoodEndpoints(d.link, id, r))
      && (e.link.life.Alive? ==>
            && !e.ejected && e.link.generation == r.generation
            && e.link.log == d.link.log + [Sent(KIND_CONFIGURE, d.link.generation, id)]
                 + [Received(r)] + Takedown(d.link) + [Sent(KIND_SERVING, r.generation, id)])
  {
    var released := d.(pressed := false);
    var key := KeyPoll(true, false, edges, false);
    assert Sense(d, key) == released;
    assert Step(d, CallPass(None, key, polled, inbox)) == Reinsert(released, inbox);
    FirstOutcome(d.link, inbox);
    if Configure(d.link, false, inbox).verdict.Serving? {
      FirstConfigurationTrace(d.link, inbox);
    }
  }

  /** KEY3 as it should be moves nothing, and neither does KEY3 while USB is not started. */
  lemma SteadyKeyKeepsPort(d: Driver, edges: seq<EdgeRead>, level: bool, inbox: seq<Record>)
    requires d.link.life.Alive? && Drains(edges) && (level == d.ejected || !d.started)
    ensures Step(d, CallPass(None, KeyPoll(true, false, edges, level), {}, inbox)) == d.(pressed := level)
  {
    assert Sense(d, KeyPoll(true, false, edges, level)) == d.(pressed := level);
  }

  // ----------------------------------------------------------------- runtime records

  /** QUIESCE outside a configuration takes every endpoint down and is acknowledged under its
      own id; with id 0 the process then ends. */
  lemma QuiesceIsAcknowledged(d: Driver, r: Record)
    requires d.link.life.Alive? && r.kind == KIND_QUIESCE
    ensures var e := RuntimeRecord(d, r);
      && (e.link.life.Alive? <==>
            r.generation == d.link.generation && r.requestId != 0 && r.body == [] && r.fds == [])
      && (e.link.life.Alive? ==>
            && e.link.log == d.link.log + [Received(r)] + Takedown(d.link)
                 + [Sent(KIND_QUIESCED, d.link.generation, r.requestId)]
            && !e.link.enabled && forall k :: 0 <= k < |e.link.table| ==> e.link.table[k].fd.None?)
  {
    var heard := Heard(d.link, r);
    QuiesceLog(heard, r.requestId);
    assert Takedown(heard) == Takedown(d.link);
  }

  /** A runtime record that is survived is of the current generation and one of three kinds,
      QUIESCE, bus event and control request, each in its form: no record of a retired generation is ever acted upon. */
  lemma OnlyCurrentRecordsSurvive(d: Driver, r: Record)
    requires d.link.life.Alive? && RuntimeRecord(d, r).link.life.Alive?
    ensures r.generation == d.link.generation && r.fds == []
    ensures || (r.kind == 0x11 && r.requestId != 0 && r.body == [])
            || (r.kind == 0x03 && r.requestId == 0 && |r.body| == 9)
            || (r.kind == 0x04 && r.requestId != 0 && |r.body| >= 8)
  {}

  /** A bus event, byte by byte: which ones end the process, what they make of activation,
      suspension and `enabled`, and that helpers run exactly on the open endpoints of an enabled
      bus. No file is touched. */
  lemma BusEventExactly(d: Driver, r: Record)
    requires Inv(d) && d.link.life.Alive? && r.kind == KIND_USB_BUS_EVENT
    ensures var e := RuntimeRecord(d, r);
      && (e.link.life.Alive? <==> IsBusEvent(d.link, r) && Timely(r.body, d.activation))
      && (e.link.life.Alive? ==>
            && e.activation == Be64(r.body[1..]) && (e.suspended <==> r.body[0] == 5)
            && (e.link.enabled <==> r.body[0] == 2 || (r.body[0] >= 5 && d.link.enabled))
            && |e.link.table| == |d.link.table|
            && forall k :: 0 <= k < |d.link.table| ==>
                 && e.link.table[k].fd == d.link.table[k].fd
                 && (e.link.table[k].running <==> e.link.enabled && d.link.table[k].fd.Some?))
  {
    var heard := d.(link := Heard(d.link, r));
    if IsBusEvent(d.link, r) {
      BusEventLink(heard, r);
      BusEventFields(heard, r);
      BusLinkExactly(heard.link, r.body[0]);
    }
  }

  /** BIND, UNBIND, ENABLE, DISABLE, or a SUSPEND or RESUME of the current activation. */
  predicate Timely(body: seq<byte>, activation: nat)
    requires |body| == BUS_EVENT_BODY_LENGTH
  {
    body[0] in [0, 1, 2, 3] || (body[0] in [5, 6] && Be64(body[1..]) == activation)
  }

  lemma BusLinkExactly(l: Link, kind: byte)
    requires Consistent(l) && l.life.Alive?
    ensures var m := BusLink(l, kind);
      && (m.life.Alive? <==> kind in [0, 1, 2, 3, 5, 6])
      && (m.life.Alive? ==>
            && (m.enabled <==> kind == 2 || (kind >= 5 && l.enabled))
            && |m.table| == |l.table|
            && forall k :: 0 <= k < |l.table| ==>
                 && m.table[k].fd == l.table[k].fd
                 && (m.table[k].running <==> m.enabled && l.table[k].fd.Some?))
  {
    var m := BusLink(l, kind);
    HaltStills(l);
    forall k | 0 <= k < |l.table| && m.life.Alive?
      ensures m.table[k].fd == l.table[k].fd && (m.table[k].running <==> m.enabled && l.table[k].fd.Some?)
    {
      assert SlotOk(k, l.table[k], l.enabled);
      if kind == 2 && !l.enabled {
        assert m.table[k] == StartSlot(Safe3, k, l.table[k]);
      }
    }
  }

  /** A control request that is well-formed gets exactly one response, under its own id and
      the current generation, and touches no endpoint; any other ends the process. */
  lemma ControlRequestIsAnsweredOnce(d: Driver, r: Record)
    requires d.link.life.Alive? && r.kind == KIND_USB_CONTROL_REQUEST
    ensures var e := RuntimeRecord(d, r);
      && (e.link.life.Alive? <==> Control.WellFormed(r, d.link.generation))
      && (e.link.life.Alive? ==>
            && e.link.log == d.link.log + [Received(r)]
                 + [Sent(KIND_USB_CONTROL_RESPONSE, d.link.generation, r.requestId)]
            && e == d.(link := d.link.(log := e.link.log)))
  {}

  // --------------------------------------------------------------- endpoint accesses

  /** A slot changes as `e` says and nothing else does. */
  predicate OnlySlot(d: Driver, f: Driver, k: nat, e: Endpoint) {
    && k < |d.link.table| == |f.link.table| && f.link.table[k] == e
    && (forall j :: 0 <= j < |d.link.table| && j != k ==> f.link.table[j] == d.link.table[j])
    && f == d.(link := d.link.(table := f.link.table))
  }

  /** iface_write accepts a packet exactly when the bus is enabled and not suspended, the IN
      endpoint of the interface has a file and an empty slot, and the packet fits it; the slot
      then holds it. A packet that is turned away changes nothing. */
  lemma WriteAcceptsExactly(d: Driver, iface: nat, length: nat)
    requires Inv(d) && d.link.life.Alive? && iface < MAX_INTERFACES
    ensures var f := Step(d, CallWrite(iface, length));
      var was := d.link.table[2 * iface + 1];
      && |d.link.table| == 16
      && (d.link.enabled && !d.suspended && was.fd.Some? && !was.occupied && length <= was.maxPacket ==>
            OnlySlot(d, f, 2 * iface + 1, was.(occupied := true, length := length)) && was.running)
      && (f == d <==> !(d.link.enabled && !d.suspended && was.fd.Some? && !was.occupied && length <= was.maxPacket))
  {
    assert SlotOk(2 * iface + 1, d.link.table[2 * iface + 1], d.link.enabled);
  }

  /** iface_read empties the OUT slot of the interface exactly when it holds a packet, which it
      does only while the bus is enabled, suspended or not. */
  lemma ReadTakesExactly(d: Driver, iface: nat)
    requires Inv(d) && d.link.life.Alive? && iface < MAX_INTERFACES
    ensures var f := Step(d, CallRead(iface));
      var was := d.link.table[2 * iface];
      && |d.link.table| == 16
      && (was.occupied ==> d.link.enabled && OnlySlot(d, f, 2 * iface, was.(occupied := false, length := 0)))
      && (f == d <==> !was.occupied)
  {
    assert SlotOk(2 * iface, d.link.table[2 * iface], d.link.enabled);
  }

  /** The other side of a slot: a helper that runs fills an empty OUT slot with a packet that
      fits and empties a full IN slot, and does nothing else. */
  lemma HelperMovesExactly(d: Driver, k: nat, length: nat)
    requires Inv(d) && d.link.life.Alive? && k < 16
    ensures var f := Step(d, Action.Helper(k, length));
      var was := d.link.table[k];
      var fills := was.running && k % 2 == 0 && !was.occupied && length <= was.maxPacket;
      var empties := was.running && k % 2 == 1 && was.occupied;
      && |d.link.table| == 16
      && (fills ==> OnlySlot(d, f, k, was.(occupied := true, length := length)))
      && (empties ==> OnlySlot(d, f, k, was.(occupied := false, length := 0)))
      && (!fills && !empties ==> f == d)
  {
    assert |d.link.table| == 16;
  }
}
