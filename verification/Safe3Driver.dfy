/** The Safe 3 driver as the C code has it: one object whose fields every handler
    updates, around the endpoint table of `Generation.Port`. Each method is proved
    against the function of `Safe3Usb` that specifies it. */
module Safe3Driver {
  import opened Common
  import opened Wire
  import opened Generation
  import opened Safe3Usb
  import Control

  /** Equal, except for what a process that ends leaves behind. */
  predicate Matches(v: Driver, spec: Driver) {
    v.link.life == spec.link.life && (!spec.link.life.Exited? ==> v == spec)
  }

  function Elements(s: seq<nat>): set<nat> {
    set k | k in s
  }

  class UsbDriver {
    const port: Port
    const pipe: Control.Pipe
    var synchronized: bool
    var initialized: bool
    var started: bool
    var suspended: bool
    var ejected: bool
    var pressed: bool
    var activation: nat
    ghost var ports: seq<PortChange>

    ghost predicate Valid()
      reads this, port
    {
      port.Valid() && port.worker.Safe3? && pipe.interfaces.Length == Control.MAX_INTERFACES
    }

    ghost function View(): Driver
      reads this, port, port.endpoints
    {
      Driver(synchronized, initialized, started, suspended, ejected, pressed, activation, ports, port.View())
    }

    constructor (pressed: bool)
      ensures Valid() && fresh(port) && fresh(port.endpoints) && fresh(pipe) && fresh(pipe.interfaces)
      ensures View() == Boot(pressed)
    {
      port := new Port(Safe3);
      pipe := new Control.Pipe();
      synchronized, initialized, started, suspended, ejected := false, false, false, false, false;
      this.pressed, activation, ports := pressed, 0, [];
    }

    method UsbStop()
      requires Valid()
      modifies this, port, port.endpoints
      ensures View() == Stop(old(View()))
    {
      if !started {
        return;
      }
      port.enabled := false;
      port.StopEndpointThreads();
      started := false;
    }

    method UsbDeinit()
      requires Valid()
      modifies this, port, port.endpoints
      ensures View() == Deinit(old(View()))
    {
      if !initialized {
        return;
      }
      UsbStop();
      initialized := false;
    }

    method UsbInit(builderOk: bool, registerOk: bool)
      requires Valid() && port.life.Alive?
      modifies this, port, port.endpoints
      ensures Matches(View(), Init(old(View()), builderOk, registerOk))
    {
      if initialized || !builderOk {
        return;
      }
      port.ResetEndpoints(synchronized);
      synchronized := true;
      if !registerOk {
        return;
      }
      initialized := true;
      var id := port.SendConfigure();
    }

    method UsbStart(same: bool, builderOk: bool, registerOk: bool, inbox: seq<Record>)
      returns (ok: bool, rest: seq<Record>)
      requires Valid() && port.life.Alive?
      modifies this, port, port.endpoints
      ensures Matches(View(), Start(old(View()), same, builderOk, registerOk, inbox))
      ensures !port.life.Exited? ==> (ok <==> started)
    {
      rest := inbox;
      if !initialized {
        return started, rest;
      }
      if started {
        if same {
          return true, rest;
        }
        UsbStop();
      }
      if !builderOk {
        return false, rest;
      }
      var verdict;
      verdict, rest := port.ConfigureUntilEndpoints(port.generation != 0, inbox);
      if !verdict.Serving? || !registerOk {
        return false, rest;
      }
      started := true;
      return true, rest;
    }

    method HandleBusEvent(r: Record)
      requires Valid() && port.life.Alive?
      modifies this, port, port.endpoints
      ensures Matches(View(), BusEvent(old(View()), r))
    {
      if r.generation != port.generation || r.requestId != 0 || |r.body| != BUS_EVENT_BODY_LENGTH || r.fds != [] {
        port.life := Exited;
        return;
      }
      var next := Be64(r.body[1..]);
      if (r.body[0] == 5 || r.body[0] == 6) && next != activation {
        port.life := Exited;
        return;
      }
      activation := next;
      if r.body[0] == 0 || r.body[0] == 1 || r.body[0] == 3 {
        port.enabled := false;
        suspended := false;
        port.StopEndpointThreads();
      } else if r.body[0] == 2 {
        if !port.enabled {
          port.StartEndpointThreads();
          port.enabled := true;
        }
        suspended := false;
      } else if r.body[0] == 5 {
        suspended := true;
      } else if r.body[0] == 6 {
        suspended := false;
      } else {
        port.life := Exited;
      }
    }

    /** handle_control_request, after the record has been received. */
    method HandleControlRequest(r: Record) returns (reply: Option<Control.Reply>)
      requires Valid() && port.life.Alive?
      modifies port`log, port`life, pipe.interfaces
      ensures port.life == if Control.WellFormed(r, port.generation) then Alive else Exited
      ensures reply.Some? <==> Control.WellFormed(r, port.generation)
      ensures reply.None? ==> pipe.interfaces[..] == old(pipe.interfaces[..]) && port.log == old(port.log)
      ensures reply.Some? ==>
        var s, ifaces := Control.ToSetup(r.body), old(pipe.interfaces[..]);
        && reply.value == Control.Reply(r.requestId, Control.Answer(ifaces, port.enabled, s))
        && pipe.interfaces[..] == Control.After(ifaces, s)
        && port.log == old(port.log) + [Sent(KIND_USB_CONTROL_RESPONSE, port.generation, r.requestId)]
    {
      reply := pipe.AnswerControlRequest(r, port.generation, port.enabled);
      if reply.Some? {
        port.log := port.log + [Sent(KIND_USB_CONTROL_RESPONSE, port.generation, r.requestId)];
      } else {
        port.life := Exited;
      }
    }

    /** A control request changes the interfaces and is answered as `Control` says. */
    method HandleRuntimeRecord(r: Record) returns (reply: Option<Control.Reply>)
      requires Valid() && port.life.Alive?
      modifies this, port, port.endpoints, pipe.interfaces
      ensures Matches(View(), RuntimeRecord(old(View()), r))
      ensures reply.Some? <==> r.kind == KIND_USB_CONTROL_REQUEST && Control.WellFormed(r, old(port.generation))
      ensures reply.None? ==> pipe.interfaces[..] == old(pipe.interfaces[..])
      ensures reply.Some? ==>
        var s, ifaces := Control.ToSetup(r.body), old(pipe.interfaces[..]);
        && reply.value == Control.Reply(r.requestId, Control.Answer(ifaces, old(port.enabled), s))
        && pipe.interfaces[..] == Control.After(ifaces, s)
    {
      reply := None;
      port.log := port.log + [Received(r)];
      if r.kind == KIND_USB_BUS_EVENT {
        HandleBusEvent(r);
      } else if r.kind == KIND_USB_CONTROL_REQUEST {
        reply := HandleControlRequest(r);
      } else if r.kind == KIND_QUIESCE && r.generation == port.generation && r.body == [] && r.fds == [] {
        port.CloseAllEndpoints();
        port.log := port.log + [Sent(KIND_QUIESCED, port.generation, r.requestId)];
        if r.requestId == 0 {
          port.life := Exited;
        }
      } else {
        port.life := Exited;
      }
    }

    method UnconfigureUntilQuiesced(inbox: seq<Record>) returns (rest: seq<Record>)
      requires Valid() && port.life.Alive?
      modifies this, port, port.endpoints
      ensures Matches(View(), Unconfigure(old(View()), inbox))
    {
      rest := inbox;
      var id := port.SendConfigure();
      if port.life.Exited? {
        return;
      }
      if inbox == [] {
        port.life := Blocked;
        return;
      }
      var r := inbox[0];
      rest := inbox[1..];
      port.log := port.log + [Received(r)];
      if r.kind == KIND_CONFIGURATION_REJECTED && r.generation == port.generation && r.requestId == id && r.fds == [] {
        return;
      }
      if r.kind != KIND_QUIESCE || r.generation != port.generation || r.requestId != id || r.body != [] || r.fds != [] {
        port.life := Exited;
        return;
      }
      port.CloseAllEndpoints();
      port.log := port.log + [Sent(KIND_QUIESCED, port.generation, id)];
      ejected := true;
      ports := ports + [Eject];
    }

    /** refresh_reconnect_state: however many edges are queued, the level sampled after
        the drain is what counts. */
    method RefreshReconnectState(key: KeyPoll)
      requires Valid() && port.life.Alive?
      modifies this`pressed, port`life
      ensures View() == Refresh(old(View()), key)
    {
      var i := 0;
      while i < |key.edges|
        invariant 0 <= i <= |key.edges| && View() == old(View())
        invariant DrainEnd(key.edges) == DrainEnd(key.edges[i..])
      {
        assert key.edges[i..][1..] == key.edges[i + 1..];
        match key.edges[i]
        case Edge => i := i + 1;
        case Eintr => i := i + 1;
        case Eagain =>
          if key.level != pressed {
            pressed := key.level;
          }
          return;
        case _ =>
          port.life := Exited;
          return;
      }
      port.life := Blocked;
    }

    /** service_controller with what poll reported: a control record, KEY3, and the
        endpoints whose eventfd was readable. */
    method ServiceController(record: Option<Record>, key: KeyPoll, polled: seq<nat>, inbox: seq<Record>)
      returns (rest: seq<Record>)
      requires Valid() && port.life.Alive?
      requires Pollable(port.View(), Elements(polled))
      modifies this, port, port.endpoints, pipe.interfaces
      ensures Matches(View(), Pass(old(View()), record, key, Elements(polled), inbox))
    {
      rest := inbox;
      if record.Some? {
        var reply := HandleRuntimeRecord(record.value);
        if !port.life.Alive? {
          return;
        }
      }
      if key.readable {
        RefreshReconnectState(key);
        if !port.life.Alive? {
          return;
        }
      }
      if key.unexpected {
        port.life := Exited;
        return;
      }
      rest := FinishPass(polled, inbox);
    }

    /** The end of service_controller. */
    method FinishPass(polled: seq<nat>, inbox: seq<Record>) returns (rest: seq<Record>)
      requires Valid() && port.life.Alive?
      modifies this, port, port.endpoints
      ensures Matches(View(), AfterSense(old(View()), Elements(polled), inbox))
    {
      rest := inbox;
      if pressed && started && !ejected {
        rest := UnconfigureUntilQuiesced(inbox);
        return;
      }
      if !pressed && started && ejected {
        var verdict;
        verdict, rest := port.ConfigureUntilEndpoints(false, inbox);
        if verdict.Serving? {
          ejected := false;
          ports := ports + [Insert];
        } else if verdict.Rejected? {
          port.life := Exited;
        }
        return;
      }
      DrainNotifications(polled);
    }

    method DrainNotifications(polled: seq<nat>)
      requires Valid() && port.life.Alive?
      modifies port`life
      ensures Matches(View(), Drain(old(View()), Elements(polled)))
    {
      for i := 0 to |polled|
        invariant port.life.Alive?
        invariant forall j :: 0 <= j < i ==> polled[j] < port.endpoints.Length && port.endpoints[polled[j]].eventOpen
      {
        var k := polled[i];
        if k >= port.endpoints.Length || !port.endpoints[k].eventOpen {
          assert k in Elements(polled);
          port.life := Exited;
          return;
        }
      }
    }

    /** iface_read as far as slots and flags go; the bytes are `Safe3Out`. */
    method ReadInterface(iface: nat, length: nat) returns (copied: nat)
      requires Valid() && iface < MAX_INTERFACES
      modifies port.endpoints
      ensures View() == IfaceRead(old(View()), iface)
      ensures copied == if old(port.endpoints[OutSlot(iface)].occupied)
                        then Min(old(port.endpoints[OutSlot(iface)].length), length) else 0
    {
      var k := OutSlot(iface);
      if !port.endpoints[k].occupied {
        return 0;
      }
      copied := Min(port.endpoints[k].length, length);
      port.endpoints[k] := port.endpoints[k].(occupied := false, length := 0);
    }

    /** iface_write as far as slots and flags go; the bytes are `Safe3In`. */
    method WriteInterface(iface: nat, length: nat) returns (accepted: nat)
      requires Valid() && iface < MAX_INTERFACES
      modifies port.endpoints
      ensures View() == IfaceWrite(old(View()), iface, length)
      ensures accepted == (if View() == old(View()) then 0 else length)
    {
      var k := InSlot(iface);
      var e := port.endpoints[k];
      if !port.enabled || suspended || e.fd.None? || length > e.maxPacket || e.occupied {
        return 0;
      }
      port.endpoints[k] := e.(occupied := true, length := length);
      assert port.endpoints[k].occupied != old(View()).link.table[k].occupied;
      return length;
    }
  }
}
