/** The legacy driver as the C code has it: handlers that update one endpoint table,
    `usb_enabled`, the clock and the panel. Each method is proved against the function of
    `LegacyUsb` that specifies it; the bus event handler also against
    `Parking.Platform.HandleBusEvent`. */
module LegacyDriver {
  import opened Common
  import opened Wire
  import opened EndpointMap
  import opened Generation
  import opened LegacyUsb
  import Control
  import Display
  import Parking

  /** Equal, except for what a process that ends leaves behind. */
  predicate Matches(v: Driver, spec: Driver) {
    v.link.life == spec.link.life && (!spec.link.life.Exited? ==> v == spec)
  }

  /** What a bus event does to the panel: ENABLE (2) and RESUME (6) show the last frame again
      if it was dark, SUSPEND (5) darkens it, BIND, UNBIND and DISABLE leave it as it is. */
  predicate Switches(kind: byte, before: Display.State, after: Display.State, env: Display.Env) {
    && (kind == 2 || kind == 6 ==> after == Display.Resume(before, env))
    && (kind == 5 ==> after == Display.Suspend(before))
    && (kind == 0 || kind == 1 || kind == 3 ==> after == before)
  }

  class UsbDriver {
    const port: Port
    const platform: Parking.Platform
    var initialized: bool
    var activation: nat

    /** Clock and panel agree on suspension throughout. */
    ghost predicate Valid()
      reads this, port, platform
    {
      port.Valid() && port.worker.Legacy? && platform.Valid()
    }

    ghost function View(): Driver
      reads this, port, port.endpoints, platform
    {
      Driver(initialized, activation, platform.timer.suspended, port.View())
    }

    constructor (raw: nat)
      requires raw < Parking.U64
      ensures Valid() && fresh(port) && fresh(port.endpoints) && fresh(platform)
      ensures View() == Boot()
    {
      port := new Port(Legacy);
      platform := new Parking.Platform(raw);
      initialized, activation := false, 0;
    }

    /** usbInit: a first configuration that is rejected ends the process. */
    method UsbInit(inbox: seq<Record>) returns (rest: seq<Record>)
      requires Valid() && port.life.Alive?
      modifies this, port, port.endpoints
      ensures Valid() && Matches(View(), Init(old(View()), inbox))
    {
      port.ResetEndpoints(initialized);
      initialized := true;
      var verdict;
      verdict, rest := port.ConfigureUntilEndpoints(false, inbox);
      if verdict.Rejected? {
        port.life := Exited;
      }
    }

    /** usbReconnect */
    method UsbReconnect(inbox: seq<Record>) returns (rest: seq<Record>)
      requires Valid() && port.life.Alive?
      modifies this, port, port.endpoints
      ensures Valid() && Matches(View(), Reconnect(old(View()), inbox))
    {
      var verdict;
      verdict, rest := port.ConfigureUntilEndpoints(true, inbox);
    }

    /** virtual_ep_setup, once for each call firmware makes of it. */
    method SetUpEndpoints(setups: seq<EpSetup>)
      requires Valid() && port.life.Alive?
      modifies port`life, port.endpoints
      ensures Valid() && Agrees(port.View(), SetUp(old(port.View()), setups))
      ensures port.life.Alive? || port.life.Exited?
    {
      assert setups[..0] == [];
      for i := 0 to |setups|
        invariant Valid() && port.life.Alive? && port.View() == SetUp(old(port.View()), setups[..i])
      {
        assert setups[..i + 1][..i] == setups[..i];
        var s := setups[i];
        if s.address % 128 != 0 {
          var k := SlotOf(s.address);
          if k >= port.endpoints.Length {
            port.life := Exited;
            SetUpStaysExited(old(port.View()), setups, i + 1);
            return;
          }
          port.endpoints[k] := port.endpoints[k].(address := s.address, transferType := s.transferType,
                                                  maxPacket := s.maxPacket);
        }
      }
      assert setups[..|setups|] == setups;
    }

    /** handle_usb_bus_event. `answer` is what firmware makes of SET_CONFIGURATION(1),
        `env` what the panel's backend answers. */
    method HandleBusEvent(r: Record, answer: Answer, env: Display.Env)
      requires Valid() && port.life.Alive?
      modifies this, port, port.endpoints, platform`timer, platform`display, platform`calls
      ensures Valid() && Matches(View(), BusEvent(old(View()), r, answer))
      ensures platform.raw == old(platform.raw) && platform.Awake() == old(platform.Awake())
      ensures !port.life.Exited? ==> Switches(r.body[0], old(platform.display), platform.display, env)
    {
      if r.generation != port.generation || r.requestId != 0 || |r.body| != BUS_EVENT_BODY_LENGTH || r.fds != [] {
        port.life := Exited;
        return;
      }
      var next := Be64(r.body[1..]);
      if (r.body[0] == 5 || r.body[0] == 6) && next != activation {
        port.life := Exited;
        return;
      }
      activation := next;
      SwitchBus(r.body[0], answer, env);
    }

    /** The switch of handle_usb_bus_event. */
    method SwitchBus(kind: byte, answer: Answer, env: Display.Env)
      requires Valid() && port.life.Alive?
      modifies port, port.endpoints, platform`timer, platform`display, platform`calls
      ensures Valid() && Agrees(port.View(), BusLink(old(port.View()), kind, answer))
      ensures platform.raw == old(platform.raw) && platform.Awake() == old(platform.Awake())
      ensures platform.timer.suspended == SleepsAfter(old(platform.timer.suspended), kind) || port.life.Exited?
      ensures !port.life.Exited? ==> Switches(kind, old(platform.display), platform.display, env)
    {
      if kind == 0 || kind == 1 || kind == 3 {
        port.enabled := false;
        port.StopEndpointThreads();
      } else if kind == 2 {
        platform.HandleBusEvent(Parking.Enable, env);
        if !port.enabled {
          EnableEndpoints(answer);
        }
      } else if kind == 5 {
        platform.HandleBusEvent(Parking.SuspendBus, env);
      } else if kind == 6 {
        platform.HandleBusEvent(Parking.ResumeBus, env);
      } else {
        port.life := Exited;
      }
    }

    /** The rest of ENABLE when usb_enabled is not set. */
    method EnableEndpoints(answer: Answer)
      requires Valid() && port.life.Alive? && !port.enabled
      modifies port, port.endpoints
      ensures Valid() && Agrees(port.View(), BusLink(old(port.View()), 2, answer))
    {
      SetUpEndpoints(answer.setups);
      if port.life.Exited? {
        return;
      }
      if answer.stalled {
        port.life := Exited;
        return;
      }
      port.StartEndpointThreads();
      port.enabled := true;
    }

    /** The answer to a control request comes from firmware and is not modelled. */
    method HandleRuntimeRecord(r: Record, answer: Answer, env: Display.Env)
      requires Valid() && port.life.Alive?
      modifies this, port, port.endpoints, platform`timer, platform`display, platform`calls
      ensures Valid() && Matches(View(), RuntimeRecord(old(View()), r, answer))
    {
      port.log := port.log + [Received(r)];
      if r.kind == KIND_QUIESCE {
        if r.generation != port.generation || r.body != [] || r.fds != [] {
          port.life := Exited;
          return;
        }
        port.CloseAllEndpoints();
        port.log := port.log + [Sent(KIND_QUIESCED, port.generation, r.requestId)];
      } else if r.kind == KIND_USB_BUS_EVENT {
        HandleBusEvent(r, answer, env);
      } else if r.kind == KIND_USB_CONTROL_REQUEST {
        if !Control.WellFormed(r, port.generation) {
          port.life := Exited;
          return;
        }
        SetUpEndpoints(answer.setups);
        if !port.life.Exited? {
          port.log := port.log + [Sent(KIND_USB_CONTROL_RESPONSE, port.generation, r.requestId)];
        }
      } else {
        port.life := Exited;
      }
    }

    /** One thing that happens during a callback. */
    method RunEffect(e: Effect, env: Display.Env)
      requires Valid() && port.life.Alive?
      modifies this, port, port.endpoints, platform`timer, platform`display, platform`calls
      ensures Valid() && Matches(View(), Apply(old(View()), e))
      decreases e, 0
    {
      match e
      case Disconnects =>
        port.enabled := false;
      case Reconnects(inbox) =>
        var rest := UsbReconnect(inbox);
      case Stores(k, orphan, empty) =>
        if k < port.endpoints.Length && CanStore(port.endpoints[k], orphan) {
          if port.endpoints[k].occupied || (!port.endpoints[k].buffers && !empty) {
            port.life := Exited;
          } else {
            port.endpoints[k] := Stored(port.endpoints[k], orphan);
          }
        }
      case Notifies(k, orphan) =>
        if k < port.endpoints.Length && CanNotify(port.endpoints[k], orphan) {
          if port.endpoints[k].eventOpen {
            port.endpoints[k] := Notified(port.endpoints[k], orphan);
          } else {
            port.life := Exited;
          }
        }
      case Reenters(record, answer, hits) =>
        ServiceController(record, answer, hits, env);
    }

    method RunEffects(effects: seq<Effect>, env: Display.Env)
      requires Valid() && port.life.Alive?
      modifies this, port, port.endpoints, platform`timer, platform`display, platform`calls
      ensures Valid() && Matches(View(), Effects(old(View()), effects))
      decreases effects, 0
    {
      for i := 0 to |effects|
        invariant Valid() && port.life.Alive? && Effects(View(), effects[i..]) == Effects(old(View()), effects)
      {
        RunEffect(effects[i], env);
        if !port.life.Alive? {
          return;
        }
      }
    }

    /** service_virtual_usb after poll has returned: what poll reported is read, in turn,
        only while usb_enabled is set. */
    method ServiceController(record: Option<Record>, answer: Answer, hits: seq<Hit>, env: Display.Env)
      requires Valid() && port.life.Alive?
      modifies this, port, port.endpoints, platform`timer, platform`display, platform`calls
      ensures Valid() && Matches(View(), Pass(old(View()), record, answer, hits))
      decreases hits, 1
    {
      var ready := Pollable(port.enabled, port.endpoints[..], hits);
      ghost var start := View();
      if record.Some? {
        HandleRuntimeRecord(record.value, answer, env);
        if !port.life.Alive? {
          ExitedPass(start, record.value, answer, hits);
          return;
        }
      }
      if ready {
        DrainReported(hits, env);
      }
    }

    method DrainReported(hits: seq<Hit>, env: Display.Env)
      requires Valid() && port.life.Alive?
      modifies this, port, port.endpoints, platform`timer, platform`display, platform`calls
      ensures Valid() && Matches(View(), Drain(old(View()), hits))
      decreases hits, 0
    {
      var i := 0;
      while port.enabled && i < |hits|
        invariant Valid() && port.life.Alive? && 0 <= i <= |hits|
        invariant Drain(View(), hits[i..]) == Drain(old(View()), hits)
        decreases |hits| - i
      {
        var k := hits[i].slot;
        if k >= port.endpoints.Length || !port.endpoints[k].eventOpen || port.endpoints[k].count != 1 {
          port.life := Exited;
          return;
        }
        port.endpoints[k] := port.endpoints[k].(occupied := false, count := 0);
        RunEffects(hits[i].effects, env);
        i := i + 1;
        if !port.life.Alive? {
          return;
        }
      }
    }
  }

  lemma ExitedPass(d: Driver, r: Record, answer: Answer, hits: seq<Hit>)
    requires !RuntimeRecord(d, r, answer).link.life.Alive?
    ensures Pass(d, Some(r), answer, hits) == RuntimeRecord(d, r, answer)
  {}

  lemma {:induction false} SetUpStaysExited(l: Link, setups: seq<EpSetup>, i: nat)
    requires i <= |setups| && SetUp(l, setups[..i]).life.Exited?
    ensures SetUp(l, setups).life.Exited?
    decreases |setups|
  {
    if i < |setups| {
      var front := setups[..|setups| - 1];
      assert front[..i] == setups[..i];
      SetUpStaysExited(l, front, i);
    } else {
      assert setups[..i] == setups;
    }
  }
}
