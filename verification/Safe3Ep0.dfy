/** Endpoint zero over whole runs of the Safe 3 driver: every control request that a pass
    handles meets the interfaces, the bus state and the generation of that moment. */
module Safe3Ep0 {
  import opened Common
  import opened Generation
  import opened Safe3Usb
  import C = Control

  /** A call of the driver, or of usb_hid_add or usb_webusb_add. */
  datatype Move = Drive(a: Action) | Add(n: nat, kind: C.IfaceType, report: seq<byte>)

  function Moved(d: Driver, m: Move): Driver {
    if m.Drive? then Step(d, m.a) else d
  }

  function Run(d: Driver, moves: seq<Move>): Driver {
    if moves == [] then d else Moved(Run(d, moves[..|moves| - 1]), moves[|moves| - 1])
  }

  /** The control request that this call hands to the handler, if any. */
  predicate Hands(d: Driver, a: Action) {
    d.link.life.Alive? && a.CallPass? && Pollable(d.link, a.polled)
    && a.record.Some? && a.record.value.kind == KIND_USB_CONTROL_REQUEST
  }

  /** What the handler of control requests notices of one move. */
  function Notices(d: Driver, m: Move): seq<C.Input> {
    match m
    case Add(n, kind, report) => [C.Adds(n, kind, report)]
    case Drive(a) =>
      var l := Step(d, a).link;
      (if Hands(d, a) then [C.Request(a.record.value)] else []) + [C.Now(l.enabled, l.generation)]
  }

  function History(d: Driver, moves: seq<Move>): seq<C.Input> {
    if moves == [] then []
    else
      var front, m := moves[..|moves| - 1], moves[|moves| - 1];
      History(d, front) + Notices(Run(d, front), m)
  }

  /** The handler's state at boot: eight disabled interfaces. */
  function Begin(): C.State {
    C.State(true, seq(C.MAX_INTERFACES, _ => C.Iface(C.Disabled, [], 0, 0)), false, 0, [])
  }

  lemma RunConcat(st: C.State, a: seq<C.Input>, i: C.Input)
    ensures C.Run(st, a + [i]) == C.Step(C.Run(st, a), i)
  {
    assert (a + [i])[..|a|] == a;
  }

  /** A pass that survives its control request had one that is well-formed. */
  lemma HandedIsInForm(d: Driver, a: Action)
    requires Hands(d, a) && !Step(d, a).link.life.Exited?
    ensures C.WellFormed(a.record.value, d.link.generation)
  {
    if !C.WellFormed(a.record.value, d.link.generation) {
      ControlRecordLink(d, a.record.value);
    }
  }

  /** The handler agrees with the driver. */
  predicate Agrees(d: Driver, st: C.State) {
    d.link.life.Exited? || (st.alive && st.enabled == d.link.enabled && st.generation == d.link.generation)
  }

  lemma DriveFollows(d: Driver, a: Action, before: seq<C.Input>, st: C.State)
    requires st == C.Run(Begin(), before) && Agrees(d, st) && |st.ifaces| == C.MAX_INTERFACES
    ensures var t := C.Run(Begin(), before + Notices(d, Drive(a)));
      Agrees(Step(d, a), t) && |t.ifaces| == C.MAX_INTERFACES
  {
    var l := Step(d, a).link;
    var now := C.Now(l.enabled, l.generation);
    if Hands(d, a) {
      var asked := C.Request(a.record.value);
      assert before + ([asked] + [now]) == (before + [asked]) + [now];
      RunConcat(Begin(), before, asked);
      RunConcat(Begin(), before + [asked], now);
      if !l.life.Exited? {
        HandedIsInForm(d, a);
      }
    } else {
      assert before + ([] + [now]) == before + [now];
      RunConcat(Begin(), before, now);
    }
  }

  /** Over every run of the driver that has not ended, the handler has survived too, and it
      sees `enabled` and the generation of the driver. */
  lemma {:induction false} HandlerFollows(pressed: bool, moves: seq<Move>)
    ensures var d, st := Run(Boot(pressed), moves), C.Run(Begin(), History(Boot(pressed), moves));
      Agrees(d, st) && |st.ifaces| == C.MAX_INTERFACES
  {
    if moves != [] {
      var front, m := moves[..|moves| - 1], moves[|moves| - 1];
      HandlerFollows(pressed, front);
      var d, before := Run(Boot(pressed), front), History(Boot(pressed), front);
      var st := C.Run(Begin(), before);
      if m.Add? {
        RunConcat(Begin(), before, C.Adds(m.n, m.kind, m.report));
      } else {
        DriveFollows(d, m.a, before, st);
      }
    }
  }

  lemma {:induction false} RunSplits(st: C.State, a: seq<C.Input>, b: seq<C.Input>)
    ensures C.Run(st, a + b) == C.Run(C.Run(st, a), b)
    decreases |b|
  {
    if b == [] {
      assert a + b == a;
    } else {
      var front := b[..|b| - 1];
      RunSplits(st, a, front);
      assert a + b == (a + front) + [b[|b| - 1]];
      RunConcat(st, a + front, b[|b| - 1]);
    }
  }

  /** The moves after those of `front`, as the handler notices them. */
  function Since(d: Driver, front: seq<Move>, more: seq<Move>): seq<C.Input> {
    History(Run(d, front), more)
  }

  lemma {:induction false} HistorySplits(d: Driver, front: seq<Move>, more: seq<Move>)
    ensures Run(d, front + more) == Run(Run(d, front), more)
    ensures History(d, front + more) == History(d, front) + Since(d, front, more)
    decreases |more|
  {
    if more == [] {
      assert front + more == front;
    } else {
      var less := more[..|more| - 1];
      HistorySplits(d, front, less);
      assert (front + more)[..|front + more| - 1] == front + less;
    }
  }

  /** GET_IDLE and GET_PROTOCOL return what the latest SET since any moment at which the
      interface was a HID interface carried, and else what it had then: across every bus
      event, ejection, insertion, usb_stop, usb_start and re-initialisation in between. */
  lemma GetReturnsLatestSet(pressed: bool, front: seq<Move>, more: seq<Move>, n: nat, s: C.Setup)
    requires n < C.MAX_INTERFACES && s.length >= 1
    requires !Run(Boot(pressed), front + more).link.life.Exited?
    requires var ifaces := C.Run(Begin(), History(Boot(pressed), front)).ifaces; n < |ifaces| && ifaces[n].kind.Hid?
    ensures var d := Run(Boot(pressed), front + more);
      var was := C.Run(Begin(), History(Boot(pressed), front)).ifaces[n];
      var ifaces := C.Run(Begin(), History(Boot(pressed), front + more)).ifaces;
      var since := Since(Boot(pressed), front, more);
      && (C.Gets(s, C.USB_HID_GET_IDLE, n) ==>
            C.Answer(ifaces, d.link.enabled, s) == C.Data([C.LatestIdle(since, n, was.hidIdle)]))
      && (C.Gets(s, C.USB_HID_GET_PROTOCOL, n) ==>
            C.Answer(ifaces, d.link.enabled, s) == C.Data([C.LatestProtocol(since, n, was.hidProtocol)]))
  {
    var st := C.Run(Begin(), History(Boot(pressed), front));
    HistorySplits(Boot(pressed), front, more);
    RunSplits(Begin(), History(Boot(pressed), front), Since(Boot(pressed), front, more));
    HandlerFollows(pressed, front + more);
    HandlerFollows(pressed, front);
    C.GetReturnsLatestSet(st, Since(Boot(pressed), front, more), n, s);
  }

  /** Every control request a run has handled got exactly one response, in order. */
  lemma OneResponseEach(pressed: bool, moves: seq<Move>)
    requires !Run(Boot(pressed), moves).link.life.Exited?
    ensures var inputs := History(Boot(pressed), moves);
      C.ReplyIds(C.Run(Begin(), inputs).replies) == C.RequestIds(inputs)
  {
    HandlerFollows(pressed, moves);
    C.OneResponseEach(Begin(), History(Boot(pressed), moves));
  }
}
