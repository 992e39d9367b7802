/** Safe 3 endpoint zero: `answer_control_request`. */
module Control {
  import opened Common
  import opened Wire

  const USB_DT_STRING := 3
  const USB_DT_REPORT := 0x22
  const USB_REQ_GET_STATUS := 0x00
  const USB_REQ_CLEAR_FEATURE := 0x01
  const USB_REQ_SET_FEATURE := 0x03
  const USB_REQ_GET_DESCRIPTOR := 0x06
  const USB_REQ_GET_CONFIGURATION := 0x08
  const USB_REQ_SET_CONFIGURATION := 0x09
  const USB_REQ_GET_INTERFACE := 0x0a
  const USB_REQ_SET_INTERFACE := 0x0b
  const USB_HID_GET_REPORT := 0x01
  const USB_HID_GET_IDLE := 0x02
  const USB_HID_GET_PROTOCOL := 0x03
  const USB_HID_SET_REPORT := 0x09
  const USB_HID_SET_IDLE := 0x0a
  const USB_HID_SET_PROTOCOL := 0x0b

  const MAX_INTERFACES := 8
  const MSFT100: seq<byte> := [18, 3, 77, 0, 83, 0, 70, 0, 84, 0, 49, 0, 48, 0, 48, 0, 33, 0]
  const LANDING_URL: seq<byte> := [18, 3, 1, 116, 114, 101, 122, 111, 114, 46, 105, 111, 47, 115, 116, 97, 114, 116]

  datatype IfaceType = Disabled | WebUsb | Hid

  datatype Iface = Iface(kind: IfaceType, report: seq<byte>, hidProtocol: byte, hidIdle: byte)

  function Le16(b: seq<byte>): u16
    requires |b| == 2
  {
    var high: int, low: int := b[1], b[0];
    high * 0x100 + low
  }

  /** The eight setup bytes. */
  datatype Setup = Setup(requestType: byte, request: byte, value: u16, index: u16, length: u16) {
    predicate In() {
      requestType >= 0x80
    }

    /** Bits 5 and 6: standard, class, vendor. */
    function Type(): nat {
      requestType / 0x20 % 4
    }

    function Recipient(): nat {
      requestType % 0x20
    }

    /** The interface the handler looks at: only the low byte of wIndex counts. */
    function Interface(): nat {
      index % 0x100
    }
  }

  function ToSetup(b: seq<byte>): Setup
    requires |b| >= 8
  {
    Setup(b[0], b[1], Le16(b[2..4]), Le16(b[4..6]), Le16(b[6..8]))
  }

  datatype Response = Stall | Ack | Data(bytes: seq<byte>)

  /** A record the handler answers; any other ends the process. */
  predicate WellFormed(r: Record, generation: u32) {
    && r.generation == generation && r.requestId != 0 && |r.body| >= 8 && r.fds == []
    && |r.body| - 8 == (if ToSetup(r.body).In() then 0 else ToSetup(r.body).length)
  }

  /** interface_for_number */
  function IfaceAt(ifaces: seq<Iface>, n: nat): Option<Iface> {
    if n < MAX_INTERFACES && n < |ifaces| && !ifaces[n].kind.Disabled? then Some(ifaces[n]) else None
  }

  /** The answer before it is cut to wLength. */
  function Full(ifaces: seq<Iface>, enabled: bool, s: Setup): Response {
    var i := IfaceAt(ifaces, s.Interface());
    var hid := i.Some? && i.value.kind.Hid?;
    if s.Type() == 0 && s.In() && s.request == USB_REQ_GET_DESCRIPTOR && s.value / 0x100 == USB_DT_REPORT && hid then
      Data(i.value.report)
    else if s.Type() == 0 && s.In() && s.request == USB_REQ_GET_DESCRIPTOR
            && s.value / 0x100 == USB_DT_STRING && s.value % 0x100 == 0xee then
      Data(MSFT100)
    else if s.Type() == 0 && s.In() && s.request == USB_REQ_GET_STATUS then Data([0, 0])
    else if s.Type() == 0 && s.In() && s.request == USB_REQ_GET_CONFIGURATION then Data([if enabled then 1 else 0])
    else if s.Type() == 0 && s.Recipient() == 1 && s.In() && s.request == USB_REQ_GET_INTERFACE && i.Some? then
      Data([0])
    else if s.Type() == 0 && !s.In() && s.request in {USB_REQ_SET_INTERFACE, USB_REQ_SET_CONFIGURATION,
                                                      USB_REQ_CLEAR_FEATURE, USB_REQ_SET_FEATURE} then Ack
    else if s.Type() == 1 && s.Recipient() == 1 && hid then
      if s.In() && s.request == USB_HID_GET_IDLE then Data([i.value.hidIdle])
      else if s.In() && s.request == USB_HID_GET_PROTOCOL then Data([i.value.hidProtocol])
      else if !s.In() && s.request in {USB_HID_SET_IDLE, USB_HID_SET_PROTOCOL, USB_HID_SET_REPORT} then Ack
      else if s.In() && s.request == USB_HID_GET_REPORT then Data([])
      else Stall
    else if s.Type() == 2 && s.Recipient() == 0 && s.In() && s.request == 0x01 && s.index == 2 && s.value == 1 then
      Data(LANDING_URL)
    else Stall
  }

  function Answer(ifaces: seq<Iface>, enabled: bool, s: Setup): Response {
    match Full(ifaces, enabled, s)
    case Data(bytes) => Data(Cut(bytes, s.length))
    case other => other
  }

  /** A class request that writes HID state of interface n. */
  predicate Sets(s: Setup, request: nat, n: nat) {
    s.Type() == 1 && s.Recipient() == 1 && !s.In() && s.request == request && s.Interface() == n
  }

  /** A class request that reads it back. */
  predicate Gets(s: Setup, request: nat, n: nat) {
    s.Type() == 1 && s.Recipient() == 1 && s.In() && s.request == request && s.Interface() == n
  }

  function AfterAt(i: Iface, n: nat, s: Setup): Iface {
    if !i.kind.Hid? then i
    else if Sets(s, USB_HID_SET_IDLE, n) then i.(hidIdle := s.value / 0x100)
    else if Sets(s, USB_HID_SET_PROTOCOL, n) then i.(hidProtocol := s.value % 0x100)
    else i
  }

  function After(ifaces: seq<Iface>, s: Setup): (t: seq<Iface>)
    ensures |t| == |ifaces|
  {
    seq(|ifaces|, n requires 0 <= n < |ifaces| => AfterAt(ifaces[n], n, s))
  }

  // ------------------------------------------------------ the answer, byte by byte

  /** Interface n exists and is a HID interface. */
  predicate HidAt(ifaces: seq<Iface>, n: nat) {
    n < MAX_INTERFACES && n < |ifaces| && ifaces[n].kind.Hid?
  }

  /** CLEAR_FEATURE, SET_FEATURE, SET_CONFIGURATION and SET_INTERFACE, and SET_REPORT,
      SET_IDLE and SET_PROTOCOL to a HID interface. */
  predicate Acknowledged(ifaces: seq<Iface>, b: seq<byte>)
    requires |b| >= 8
  {
    || (b[0] < 0x20 && b[1] in [0x01, 0x03, 0x09, 0x0b])
    || (b[0] == 0x21 && b[1] in [0x09, 0x0a, 0x0b] && HidAt(ifaces, b[4]))
  }

  /** The requests that are answered with data: GET_STATUS, GET_CONFIGURATION, the 0xee string
      and the report descriptor of a HID interface; GET_INTERFACE; GET_REPORT, GET_IDLE and
      GET_PROTOCOL of a HID interface; and the landing page. */
  predicate Answered(ifaces: seq<Iface>, b: seq<byte>)
    requires |b| >= 8
  {
    || (0x80 <= b[0] < 0xa0 && b[1] in [0x00, 0x08])
    || (0x80 <= b[0] < 0xa0 && b[1] == 0x06
        && ((b[3] == 0x03 && b[2] == 0xee) || (b[3] == 0x22 && HidAt(ifaces, b[4]))))
    || (b[0] == 0x81 && b[1] == 0x0a && b[4] < MAX_INTERFACES && b[4] < |ifaces| && !ifaces[b[4]].kind.Disabled?)
    || (b[0] == 0xa1 && b[1] in [0x01, 0x02, 0x03] && HidAt(ifaces, b[4]))
    || (b[0] == 0xc0 && b[1] == 0x01 && b[2..6] == [1, 0, 2, 0])
  }

  /** Which requests are acknowledged, which answered with data, and that all others stall. */
  lemma AnswerKindExactly(ifaces: seq<Iface>, enabled: bool, b: seq<byte>)
    requires |b| >= 8
    ensures var a := Answer(ifaces, enabled, ToSetup(b));
      && (a.Ack? <==> Acknowledged(ifaces, b))
      && (a.Data? <==> Answered(ifaces, b))
      && (a.Stall? <==> !Acknowledged(ifaces, b) && !Answered(ifaces, b))
  {
    SetupFields(b);
    if b[0] < 0x80 {
      OutKindExactly(ifaces, enabled, b);
    } else {
      InKindExactly(ifaces, enabled, b);
    }
  }

  /** wLength, as the two bytes of the packet give it. */
  function Asked(b: seq<byte>): nat
    requires |b| >= 8
  {
    var low: int, high: int := b[6], b[7];
    low + 0x100 * high
  }

  /** The setup packet is little-endian, with the direction on top of bmRequestType. */
  lemma SetupFields(b: seq<byte>)
    requires |b| >= 8
    ensures var s := ToSetup(b);
      && s.requestType == b[0] && s.request == b[1]
      && s.value % 0x100 == b[2] && s.value / 0x100 == b[3] && s.Interface() == b[4] && s.length == Asked(b)
      && (s.index == 2 && s.value == 1 <==> b[2..6] == [1, 0, 2, 0])
      && (s.In() <==> b[0] >= 0x80)
      && (s.Type() == 0 <==> b[0] < 0x20 || 0x80 <= b[0] < 0xa0)
      && (s.Type() == 1 && s.Recipient() == 1 <==> b[0] == 0x21 || b[0] == 0xa1)
      && (s.Type() == 2 && s.Recipient() == 0 <==> b[0] == 0x40 || b[0] == 0xc0)
      && (s.Type() == 0 && s.Recipient() == 1 && s.In() <==> b[0] == 0x81)
  {
    var value, index := b[2..4], b[4..6];
    assert value[0] == b[2] && value[1] == b[3] && index[0] == b[4] && index[1] == b[5];
    var four := b[2..6];
    assert four[0] == b[2] && four[1] == b[3] && four[2] == b[4] && four[3] == b[5];
  }

  lemma OutKindExactly(ifaces: seq<Iface>, enabled: bool, b: seq<byte>)
    requires |b| >= 8 && b[0] < 0x80
    ensures var a := Answer(ifaces, enabled, ToSetup(b));
      !a.Data? && !Answered(ifaces, b) && (a.Ack? <==> Acknowledged(ifaces, b))
  {
    SetupFields(b);
  }

  lemma InKindExactly(ifaces: seq<Iface>, enabled: bool, b: seq<byte>)
    requires |b| >= 8 && b[0] >= 0x80
    ensures var a := Answer(ifaces, enabled, ToSetup(b));
      !a.Ack? && !Acknowledged(ifaces, b) && (a.Data? <==> Answered(ifaces, b))
  {
    SetupFields(b);
  }

  /** The data of each answer, cut to wLength: the report descriptor, the string "MSFT100!", no
      feature of GET_STATUS set, the configuration value, alternate setting 0, an empty report,
      the HID state of the interface, and the landing page "trezor.io/start". */
  lemma AnswerDataExactly(ifaces: seq<Iface>, enabled: bool, b: seq<byte>)
    requires |b| >= 8 && Answered(ifaces, b)
    ensures var a := Answer(ifaces, enabled, ToSetup(b));
      var cut := Asked(b);
      && (b[0] < 0xa0 && b[1] == 0x06 && b[3] == 0x22 ==> a == Data(Cut(ifaces[b[4]].report, cut)))
      && (b[0] < 0xa0 && b[1] == 0x06 && b[3] == 0x03 ==>
            a == Data(Cut([18, 3, 77, 0, 83, 0, 70, 0, 84, 0, 49, 0, 48, 0, 48, 0, 33, 0], cut)))
      && (b[0] < 0xa0 && b[1] == 0x00 ==> a == Data(Cut([0, 0], cut)))
      && (b[0] < 0xa0 && b[1] == 0x08 ==> a == Data(Cut([if enabled then 1 else 0], cut)))
      && (b[0] < 0xa0 && b[1] == 0x0a ==> a == Data(Cut([0], cut)))
      && (b[0] == 0xa1 && b[1] == 0x01 ==> a == Data([]))
      && (b[0] == 0xa1 && b[1] == 0x02 ==> a == Data(Cut([ifaces[b[4]].hidIdle], cut)))
      && (b[0] == 0xa1 && b[1] == 0x03 ==> a == Data(Cut([ifaces[b[4]].hidProtocol], cut)))
      && (b[0] == 0xc0 ==>
            a == Data(Cut([18, 3, 1, 116, 114, 101, 122, 111, 114, 46, 105, 111, 47, 115, 116, 97, 114, 116], cut)))
  {
    SetupFields(b);
  }

  /** What a request changes: SET_IDLE and SET_PROTOCOL store the high and the low byte of
      wValue with the HID interface they name, and nothing else is ever changed. A request
      that changes anything is acknowledged, never stalled. */
  lemma ChangesExactly(ifaces: seq<Iface>, enabled: bool, b: seq<byte>, n: nat)
    requires |b| >= 8 && n < |ifaces| == MAX_INTERFACES
    ensures var stores := b[0] == 0x21 && b[4] == n && ifaces[n].kind.Hid?;
      After(ifaces, ToSetup(b))[n] ==
        if stores && b[1] == 0x0a then ifaces[n].(hidIdle := b[3])
        else if stores && b[1] == 0x0b then ifaces[n].(hidProtocol := b[2])
        else ifaces[n]
    ensures After(ifaces, ToSetup(b)) != ifaces ==> Answer(ifaces, enabled, ToSetup(b)) == Ack
  {
    SetupFields(b);
    if After(ifaces, ToSetup(b)) != ifaces {
      var k :| 0 <= k < |ifaces| && After(ifaces, ToSetup(b))[k] != ifaces[k];
      assert AfterAt(ifaces[k], k, ToSetup(b)) != ifaces[k];
      OutKindExactly(ifaces, enabled, b);
    }
  }

  /** Which records the handler answers, byte by byte: of the current generation, with a request
      id, eight setup bytes and no descriptor, and with exactly the data that an OUT request
      announces and none for an IN request. */
  lemma WellFormedExactly(r: Record, generation: u32)
    ensures WellFormed(r, generation) <==>
      && r.generation == generation && r.requestId != 0 && r.fds == [] && |r.body| >= 8
      && |r.body| == 8 + if r.body[0] >= 0x80 then 0 else Asked(r.body)
  {
    if |r.body| >= 8 {
      SetupFields(r.body);
    }
  }

  // ---------------------------------------------------------------- whole histories

  /** What matters to the handler: requests, interfaces being added, and bus events and
      configurations, after which the bus is enabled or not under some generation. */
  datatype Input =
    | Request(record: Record)
    | Adds(n: nat, kind: IfaceType, report: seq<byte>)
    | Now(enabled: bool, generation: u32)

  /** usb_hid_add and usb_webusb_add take only an interface that is still disabled. */
  function Added(ifaces: seq<Iface>, n: nat, kind: IfaceType, report: seq<byte>): (t: seq<Iface>)
    ensures |t| == |ifaces|
  {
    if n >= |ifaces| || !ifaces[n].kind.Disabled? then ifaces
    else ifaces[n := ifaces[n].(kind := kind, report := report)]
  }

  datatype Reply = Reply(requestId: u32, response: Response)

  datatype State = State(alive: bool, ifaces: seq<Iface>, enabled: bool, generation: u32, replies: seq<Reply>)

  function Step(st: State, i: Input): State {
    if !st.alive then st else
    match i
    case Now(enabled, generation) => st.(enabled := enabled, generation := generation)
    case Adds(n, kind, report) => st.(ifaces := Added(st.ifaces, n, kind, report))
    case Request(r) =>
      if !WellFormed(r, st.generation) then st.(alive := false)
      else
        var s := ToSetup(r.body);
        st.(ifaces := After(st.ifaces, s),
            replies := st.replies + [Reply(r.requestId, Answer(st.ifaces, st.enabled, s))])
  }

  function Run(st: State, inputs: seq<Input>): State {
    if inputs == [] then st else Step(Run(st, inputs[..|inputs| - 1]), inputs[|inputs| - 1])
  }

  function RequestIds(inputs: seq<Input>): seq<u32> {
    if inputs == [] then []
    else
      var front, i := RequestIds(inputs[..|inputs| - 1]), inputs[|inputs| - 1];
      if i.Request? then front + [i.record.requestId] else front
  }

  function ReplyIds(replies: seq<Reply>): (ids: seq<u32>)
    ensures |ids| == |replies|
  {
    if replies == [] then [] else ReplyIds(replies[..|replies| - 1]) + [replies[|replies| - 1].requestId]
  }

  lemma ReplyIdsGrow(replies: seq<Reply>, r: Reply)
    ensures ReplyIds(replies + [r]) == ReplyIds(replies) + [r.requestId]
  {
    assert (replies + [r])[..|replies|] == replies;
  }

  /** The generation of the latest configuration. */
  function LatestGeneration(inputs: seq<Input>, default: u32): u32 {
    if inputs == [] then default
    else
      var i := inputs[|inputs| - 1];
      if i.Now? then i.generation else LatestGeneration(inputs[..|inputs| - 1], default)
  }

  /** Input i is no request, or one that is well-formed under the generation of then. */
  predicate InForm(inputs: seq<Input>, i: nat, generation: u32)
    requires i < |inputs|
  {
    inputs[i].Request? ==> WellFormed(inputs[i].record, LatestGeneration(inputs[..i], generation))
  }

  /** The process survives a history exactly when every request in it is well-formed. */
  lemma {:induction false} OnlyMalformedRequestsKill(st: State, inputs: seq<Input>)
    requires st.alive
    ensures var t := Run(st, inputs);
      && (t.alive ==> t.generation == LatestGeneration(inputs, st.generation))
      && (t.alive <==> forall i :: 0 <= i < |inputs| ==> InForm(inputs, i, st.generation))
  {
    if inputs != [] {
      var k := |inputs| - 1;
      var front := inputs[..k];
      OnlyMalformedRequestsKill(st, front);
      forall i | 0 <= i < k ensures InForm(inputs, i, st.generation) <==> InForm(front, i, st.generation) {
        assert front[..i] == inputs[..i];
      }
      assert InForm(inputs, k, st.generation) <==>
             (inputs[k].Request? ==> WellFormed(inputs[k].record, LatestGeneration(front, st.generation)));
    }
  }

  /** Every request gets exactly one response, in order, under its own id. */
  lemma {:induction false} OneResponseEach(st: State, inputs: seq<Input>)
    requires st.alive && st.replies == [] && Run(st, inputs).alive
    ensures ReplyIds(Run(st, inputs).replies) == RequestIds(inputs)
  {
    if inputs != [] {
      var i := inputs[|inputs| - 1];
      var t := Run(st, inputs[..|inputs| - 1]);
      OneResponseEach(st, inputs[..|inputs| - 1]);
      if i.Request? {
        var s := ToSetup(i.record.body);
        ReplyIdsGrow(t.replies, Reply(i.record.requestId, Answer(t.ifaces, t.enabled, s)));
      }
    }
  }

  /** No response is longer than wLength asked for (section 9.3.5 of USB 2.0), and one
      that is shorter is complete. */
  lemma NeverLongerThanAsked(ifaces: seq<Iface>, enabled: bool, s: Setup)
    ensures var a := Answer(ifaces, enabled, s);
      a.Data? ==>
        && |a.bytes| <= s.length && a.bytes <= Full(ifaces, enabled, s).bytes
        && (|a.bytes| < s.length ==> a.bytes == Full(ifaces, enabled, s).bytes)
  {}

  /** The value the latest SET of this kind on interface n carried, `default` if none. */
  function LatestIdle(inputs: seq<Input>, n: nat, default: byte): byte {
    if inputs == [] then default
    else
      var i := inputs[|inputs| - 1];
      if i.Request? && |i.record.body| >= 8 && Sets(ToSetup(i.record.body), USB_HID_SET_IDLE, n) then
        ToSetup(i.record.body).value / 0x100
      else LatestIdle(inputs[..|inputs| - 1], n, default)
  }

  function LatestProtocol(inputs: seq<Input>, n: nat, default: byte): byte {
    if inputs == [] then default
    else
      var i := inputs[|inputs| - 1];
      if i.Request? && |i.record.body| >= 8 && Sets(ToSetup(i.record.body), USB_HID_SET_PROTOCOL, n) then
        ToSetup(i.record.body).value % 0x100
      else LatestProtocol(inputs[..|inputs| - 1], n, default)
  }

  lemma {:induction false} HidStateIsLatest(st: State, inputs: seq<Input>, n: nat)
    requires n < |st.ifaces| && st.ifaces[n].kind.Hid? && Run(st, inputs).alive
    ensures var t := Run(st, inputs);
      && |t.ifaces| == |st.ifaces|
      && t.ifaces[n].kind.Hid? && t.ifaces[n].report == st.ifaces[n].report
      && t.ifaces[n].hidIdle == LatestIdle(inputs, n, st.ifaces[n].hidIdle)
      && t.ifaces[n].hidProtocol == LatestProtocol(inputs, n, st.ifaces[n].hidProtocol)
  {
    if inputs != [] {
      HidStateIsLatest(st, inputs[..|inputs| - 1], n);
    }
  }

  /** GET_IDLE and GET_PROTOCOL return the value of the latest matching SET on that
      interface, whatever other requests, bus events and configurations came in between
      (sections 7.2.3 to 7.2.6 of HID 1.11). */
  lemma {:induction false} GetReturnsLatestSet(st: State, inputs: seq<Input>, n: nat, s: Setup)
    requires n < |st.ifaces| && n < MAX_INTERFACES && st.ifaces[n].kind.Hid?
    requires s.length >= 1 && Run(st, inputs).alive
    ensures var t := Run(st, inputs);
      && (Gets(s, USB_HID_GET_IDLE, n) ==>
            Answer(t.ifaces, t.enabled, s)
            == Data([LatestIdle(inputs, n, st.ifaces[n].hidIdle)]))
      && (Gets(s, USB_HID_GET_PROTOCOL, n) ==>
            Answer(t.ifaces, t.enabled, s)
            == Data([LatestProtocol(inputs, n, st.ifaces[n].hidProtocol)]))
  {
    HidStateIsLatest(st, inputs, n);
  }

  function LatestEnabled(inputs: seq<Input>, default: bool): bool {
    if inputs == [] then default
    else
      var i := inputs[|inputs| - 1];
      if i.Now? then i.enabled else LatestEnabled(inputs[..|inputs| - 1], default)
  }

  /** GET_CONFIGURATION tells whether the bus has the device enabled, and a HID report
      descriptor reads back unchanged up to wLength, after any history. */
  lemma {:induction false} StandardReads(st: State, inputs: seq<Input>, n: nat, s: Setup)
    requires n < |st.ifaces| && n < MAX_INTERFACES && st.ifaces[n].kind.Hid?
    requires s.Type() == 0 && s.In() && Run(st, inputs).alive
    ensures var t := Run(st, inputs);
      && t.enabled == LatestEnabled(inputs, st.enabled)
      && (s.request == USB_REQ_GET_CONFIGURATION && s.length >= 1 ==>
            Answer(t.ifaces, t.enabled, s) == Data([if LatestEnabled(inputs, st.enabled) then 1 else 0]))
      && (s.request == USB_REQ_GET_DESCRIPTOR && s.value / 0x100 == USB_DT_REPORT && s.Interface() == n ==>
            Answer(t.ifaces, t.enabled, s) == Data(Cut(st.ifaces[n].report, s.length)))
  {
    HidStateIsLatest(st, inputs, n);
    EnabledIsLatest(st, inputs);
  }

  lemma {:induction false} EnabledIsLatest(st: State, inputs: seq<Input>)
    requires Run(st, inputs).alive
    ensures Run(st, inputs).enabled == LatestEnabled(inputs, st.enabled)
  {
    if inputs != [] {
      EnabledIsLatest(st, inputs[..|inputs| - 1]);
    }
  }

  /** Input i is the first usb_hid_add or usb_webusb_add of interface n. */
  predicate FirstAdd(inputs: seq<Input>, n: nat, i: nat) {
    && i < |inputs| && inputs[i].Adds? && inputs[i].n == n && !inputs[i].kind.Disabled?
    && forall j :: 0 <= j < i && inputs[j].Adds? && inputs[j].n == n ==> inputs[j].kind.Disabled?
  }

  /** One input changes kind and report of an interface only by adding it. */
  lemma StepOnInterface(st: State, i: Input, n: nat)
    requires n < |st.ifaces| && Step(st, i).alive
    ensures var t := Step(st, i);
      && |t.ifaces| == |st.ifaces|
      && if i.Adds? && i.n == n && st.ifaces[n].kind.Disabled?
         then t.ifaces[n].kind == i.kind && t.ifaces[n].report == i.report
         else t.ifaces[n].kind == st.ifaces[n].kind && t.ifaces[n].report == st.ifaces[n].report
  {}

  /** An interface is what the first call that adds it says, whatever is asked of it and whatever
      is added afterwards; until then there is no such interface. */
  lemma {:induction false} FirstAddWins(st: State, inputs: seq<Input>, n: nat)
    requires n < |st.ifaces| && st.ifaces[n].kind.Disabled? && Run(st, inputs).alive
    ensures var t := Run(st, inputs);
      && |t.ifaces| == |st.ifaces|
      && (forall i: nat :: FirstAdd(inputs, n, i) ==>
            t.ifaces[n].kind == inputs[i].kind && t.ifaces[n].report == inputs[i].report)
      && (t.ifaces[n].kind.Disabled? <==> !exists i: nat :: FirstAdd(inputs, n, i))
  {
    if inputs != [] {
      var k := |inputs| - 1;
      var front := inputs[..k];
      FirstAddWins(st, front, n);
      StepOnInterface(Run(st, front), inputs[k], n);
      forall i: nat ensures FirstAdd(inputs, n, i) <==> FirstAdd(front, n, i) || (i == k && FirstAdd(inputs, n, k)) {
        FirstAddInFront(inputs, n, i);
      }
      if FirstAdd(inputs, n, k) {
        assert forall i: nat :: !FirstAdd(front, n, i);
      } else if !exists i: nat :: FirstAdd(front, n, i) {
        assert inputs == front + [inputs[k]];
        NothingAdded(front, inputs[k], n);
      }
    }
  }

  lemma FirstAddInFront(inputs: seq<Input>, n: nat, i: nat)
    requires inputs != []
    ensures var k := |inputs| - 1;
      FirstAdd(inputs, n, i) <==> FirstAdd(inputs[..k], n, i) || (i == k && FirstAdd(inputs, n, k))
  {
    var k := |inputs| - 1;
    assert forall j :: 0 <= j < k ==> inputs[..k][j] == inputs[j];
  }

  /** If nobody adds it before the last input, the last input adds it or nobody does. */
  lemma NothingAdded(front: seq<Input>, i: Input, n: nat)
    requires (forall j: nat :: !FirstAdd(front, n, j)) && !FirstAdd(front + [i], n, |front|)
    ensures i.Adds? && i.n == n ==> i.kind.Disabled?
  {
    NoneBefore(front, n, |front|);
    assert (front + [i])[|front|] == i && forall j :: 0 <= j < |front| ==> (front + [i])[j] == front[j];
  }

  lemma {:induction false} NoneBefore(inputs: seq<Input>, n: nat, k: nat)
    requires k <= |inputs| && forall i: nat :: !FirstAdd(inputs, n, i)
    ensures forall j :: 0 <= j < k && inputs[j].Adds? && inputs[j].n == n ==> inputs[j].kind.Disabled?
  {
    if k > 0 {
      NoneBefore(inputs, n, k - 1);
      assert !FirstAdd(inputs, n, k - 1);
    }
  }

  // ----------------------------------------------------------- the C code itself

  class Pipe {
    const interfaces: array<Iface>

    constructor ()
      ensures fresh(interfaces) && interfaces.Length == MAX_INTERFACES
      ensures interfaces[..] == seq(MAX_INTERFACES, _ => Iface(Disabled, [], 0, 0))
    {
      interfaces := new Iface[MAX_INTERFACES](_ => Iface(Disabled, [], 0, 0));
      new;
      assert interfaces[..] == seq(MAX_INTERFACES, _ => Iface(Disabled, [], 0, 0));
    }

    /** answer_control_request; None is its exit. */
    method AnswerControlRequest(record: Record, generation: u32, enabled: bool) returns (reply: Option<Reply>)
      requires interfaces.Length == MAX_INTERFACES
      modifies interfaces
      ensures reply.Some? <==> WellFormed(record, generation)
      ensures reply.None? ==> interfaces[..] == old(interfaces[..])
      ensures reply.Some? ==>
        var s := ToSetup(record.body);
        && reply.value == Reply(record.requestId, Answer(old(interfaces[..]), enabled, s))
        && interfaces[..] == After(old(interfaces[..]), s)
    {
      if record.generation != generation || record.requestId == 0 || |record.body| < 8 || record.fds != [] {
        return None;
      }
      var s := ToSetup(record.body);
      var outLength := |record.body| - 8;
      if (s.In() && outLength != 0) || (!s.In() && outLength != s.length) {
        return None;
      }
      var response := Respond(s, enabled);
      if response.Data? && |response.bytes| > s.length {
        response := Data(response.bytes[..s.length]);
      }
      return Some(Reply(record.requestId, response));
    }

    /** The answer before it is cut to wLength. */
    method Respond(s: Setup, enabled: bool) returns (response: Response)
      requires interfaces.Length == MAX_INTERFACES
      modifies interfaces
      ensures response == Full(old(interfaces[..]), enabled, s) && interfaces[..] == After(old(interfaces[..]), s)
    {
      var n := s.Interface();
      var hid := n < MAX_INTERFACES && interfaces[n].kind.Hid?;
      if s.Type() == 1 && s.Recipient() == 1 && hid {
        response := AnswerHidRequest(n, s);
        return;
      }
      assert forall k :: 0 <= k < MAX_INTERFACES ==> AfterAt(interfaces[k], k, s) == interfaces[k];
      assert After(interfaces[..], s) == interfaces[..];
      if s.Type() == 0 && s.In() && s.request == USB_REQ_GET_DESCRIPTOR && s.value / 0x100 == USB_DT_REPORT && hid {
        return Data(interfaces[n].report);
      }
      response := AnswerPlainRequest(s, enabled);
    }

    /** The branches of answer_control_request that need no HID interface. */
    method AnswerPlainRequest(s: Setup, enabled: bool) returns (response: Response)
      requires interfaces.Length == MAX_INTERFACES
      requires !(s.Type() == 1 && s.Recipient() == 1 && s.Interface() < MAX_INTERFACES
                 && interfaces[s.Interface()].kind.Hid?)
      requires !(s.Type() == 0 && s.In() && s.request == USB_REQ_GET_DESCRIPTOR && s.value / 0x100 == USB_DT_REPORT
                 && s.Interface() < MAX_INTERFACES && interfaces[s.Interface()].kind.Hid?)
      ensures response == Full(interfaces[..], enabled, s)
    {
      var n := s.Interface();
      if s.Type() == 0 && s.In() && s.request == USB_REQ_GET_DESCRIPTOR
         && s.value / 0x100 == USB_DT_STRING && s.value % 0x100 == 0xee
      {
        return Data(MSFT100);
      } else if s.Type() == 0 && s.In() && s.request == USB_REQ_GET_STATUS {
        return Data([0, 0]);
      } else if s.Type() == 0 && s.In() && s.request == USB_REQ_GET_CONFIGURATION {
        return Data([if enabled then 1 else 0]);
      } else if s.Type() == 0 && s.Recipient() == 1 && s.In() && s.request == USB_REQ_GET_INTERFACE
                && n < MAX_INTERFACES && !interfaces[n].kind.Disabled?
      {
        return Data([0]);
      } else if s.Type() == 0 && !s.In()
                && (s.request == USB_REQ_SET_INTERFACE || s.request == USB_REQ_SET_CONFIGURATION
                    || s.request == USB_REQ_CLEAR_FEATURE || s.request == USB_REQ_SET_FEATURE)
      {
        return Ack;
      } else if s.Type() == 2 && s.Recipient() == 0 && s.In() && s.request == 0x01 && s.index == 2 && s.value == 1 {
        return Data(LANDING_URL);
      }
      return Stall;
    }

    /** The class requests to HID interface n. */
    method AnswerHidRequest(n: nat, s: Setup) returns (response: Response)
      requires interfaces.Length == MAX_INTERFACES && n < MAX_INTERFACES && n == s.Interface()
      requires interfaces[n].kind.Hid? && s.Type() == 1 && s.Recipient() == 1
      modifies interfaces
      ensures forall enabled :: response == Full(old(interfaces[..]), enabled, s)
      ensures interfaces[..] == After(old(interfaces[..]), s)
    {
      ghost var was := interfaces[..];
      assert forall k :: 0 <= k < MAX_INTERFACES && k != n ==> AfterAt(was[k], k, s) == was[k];
      if s.In() && s.request == USB_HID_GET_IDLE {
        return Data([interfaces[n].hidIdle]);
      } else if s.In() && s.request == USB_HID_GET_PROTOCOL {
        return Data([interfaces[n].hidProtocol]);
      } else if !s.In() && s.request == USB_HID_SET_IDLE {
        interfaces[n] := interfaces[n].(hidIdle := s.value / 0x100);
        return Ack;
      } else if !s.In() && s.request == USB_HID_SET_PROTOCOL {
        interfaces[n] := interfaces[n].(hidProtocol := s.value % 0x100);
        return Ack;
      } else if !s.In() && s.request == USB_HID_SET_REPORT {
        return Ack;
      } else if s.In() && s.request == USB_HID_GET_REPORT {
        return Data([]);
      }
      return Stall;
    }
  }
}
