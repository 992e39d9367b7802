/** The worker's side of one USB generation: endpoint table, helper threads, and the
    configure / quiesce / endpoints / serving exchange. Both workers run this code;
    they differ in the highest endpoint number and in which directions have a helper
    thread. */
module Generation {
  import opened Common
  import opened Wire
  import opened EndpointMap

  const KIND_USB_ENDPOINTS: byte := 0x02
  const KIND_USB_BUS_EVENT: byte := 0x03
  const KIND_USB_CONTROL_REQUEST: byte := 0x04
  const KIND_QUIESCE: byte := 0x11
  const KIND_CONFIGURATION_REJECTED: byte := 0x12
  const KIND_CONFIGURE: byte := 0x80
  const KIND_USB_CONTROL_RESPONSE: byte := 0x81
  const KIND_SERVING: byte := 0x82
  const KIND_QUIESCED: byte := 0x84

  /** The helper threads of a slot. `pending`: the one that `thread` names has stored a
      packet and not yet written the eventfd. `orphans`: helpers that it named before and
      that nobody will join; `late` of them have stored a packet and not yet notified. */
  datatype Threads = Threads(pending: bool, orphans: nat, late: nat)

  datatype Endpoint = Endpoint(
    fd: Option<Fd>,          // FunctionFS file
    eventOpen: bool,
    count: nat,              // what a legacy eventfd holds
    running: bool,           // thread_running
    threads: Threads,
    buffers: bool,           // packet buffers allocated
    occupied: bool,
    length: nat,
    address: byte,
    transferType: byte,
    maxPacket: u16)

  const IDLE_ENDPOINT := Endpoint(None, false, 0, false, Threads(false, 0, 0), false, false, 0, 0, 0, 0)

  /** Static storage: until the first initialisation every file and every eventfd of the
      table is descriptor 0. */
  const ZERO_ENDPOINT := IDLE_ENDPOINT.(fd := Some(0), eventOpen := true)

  /** Everything the worker does that the supervisor, the kernel or another thread
      can see, in order. */
  datatype Event =
    | Sent(kind: byte, generation: u32, requestId: u32)
    | Received(record: Record)
    | Spawned(slot: nat)
    | Joined(slot: nat)
    | Closed(slot: nat, fd: Fd)
    | Forgotten(fd: Fd)      // overwritten by re-initialisation, never closed

  /** `Blocked` means still waiting in receive_record. */
  datatype Life = Alive | Exited | Blocked

  datatype Link = Link(
    worker: Worker,
    life: Life,
    enabled: bool,
    generation: u32,
    nextRequestId: u32,
    table: seq<Endpoint>,
    log: seq<Event>)

  function MaxNumber(w: Worker): nat {
    if w.Safe3? then 8 else 7
  }

  function Slots(w: Worker): nat {
    2 * MaxNumber(w)
  }

  /** Safe 3 has a helper per endpoint, the legacy worker only per OUT endpoint. */
  predicate Threaded(w: Worker, k: nat) {
    w.Safe3? || k % 2 == 0
  }

  /** The link of a process that has just begun. */
  function Zeroed(w: Worker): Link {
    Link(w, Alive, false, 0, 1, seq(Slots(w), _ => ZERO_ENDPOINT), [])
  }

  predicate WellSized(l: Link) {
    |l.table| == Slots(l.worker)
  }

  // ------------------------------------------------------- stopping and closing

  function StopSlot(w: Worker, k: nat, e: Endpoint): Endpoint {
    if Threaded(w, k) then
      e.(running := false, threads := e.threads.(pending := false), eventOpen := false, count := 0,
         buffers := false, length := 0, occupied := false)
    else e
  }

  function StopTable(w: Worker, t: seq<Endpoint>): (s: seq<Endpoint>)
    ensures |s| == |t|
  {
    seq(|t|, k requires 0 <= k < |t| => StopSlot(w, k, t[k]))
  }

  function JoinEvents(w: Worker, t: seq<Endpoint>): seq<Event> {
    if t == [] then []
    else
      var k := |t| - 1;
      if Threaded(w, k) && t[k].running then JoinEvents(w, t[..k]) + [Joined(k)] else JoinEvents(w, t[..k])
  }

  function CloseTable(t: seq<Endpoint>): (s: seq<Endpoint>)
    ensures |s| == |t|
  {
    seq(|t|, k requires 0 <= k < |t| => t[k].(fd := None))
  }

  function CloseEvents(t: seq<Endpoint>): seq<Event> {
    if t == [] then []
    else
      var k := |t| - 1;
      if t[k].fd.Some? then CloseEvents(t[..k]) + [Closed(k, t[k].fd.value)] else CloseEvents(t[..k])
  }

  function StopThreads(l: Link): Link {
    l.(table := StopTable(l.worker, l.table), log := l.log + JoinEvents(l.worker, l.table))
  }

  function CloseEndpoints(l: Link): Link {
    var s := StopThreads(l).(enabled := false);
    s.(table := CloseTable(s.table), log := s.log + CloseEvents(s.table))
  }

  // -------------------------------------------------------------------- starting

  predicate Startable(w: Worker, k: nat, e: Endpoint) {
    e.fd.Some? && Threaded(w, k)
  }

  /** pthread_create overwrites the handle of a helper that is still there. */
  function Overwrite(e: Endpoint): Threads {
    if e.running then Threads(false, e.threads.orphans + 1, e.threads.late + if e.threads.pending then 1 else 0)
    else e.threads
  }

  function StartSlot(w: Worker, k: nat, e: Endpoint): Endpoint {
    if !Startable(w, k, e) then e
    else
      var f := e.(buffers := true, eventOpen := true, threads := Overwrite(e), running := true);
      if w.Safe3? then f else f.(count := 0, length := 0, occupied := false)
  }

  function StartTable(w: Worker, t: seq<Endpoint>): (s: seq<Endpoint>)
    ensures |s| == |t|
  {
    seq(|t|, k requires 0 <= k < |t| => StartSlot(w, k, t[k]))
  }

  function SpawnEvents(w: Worker, t: seq<Endpoint>): seq<Event> {
    if t == [] then []
    else
      var k := |t| - 1;
      if Startable(w, k, t[k]) then SpawnEvents(w, t[..k]) + [Spawned(k)] else SpawnEvents(w, t[..k])
  }

  /** The legacy worker refuses to start a zero-sized OUT endpoint. */
  predicate CanStart(w: Worker, t: seq<Endpoint>) {
    w.Legacy? ==> forall k :: 0 <= k < |t| && Startable(w, k, t[k]) ==> t[k].maxPacket > 0
  }

  function StartThreads(l: Link): Link {
    if !CanStart(l.worker, l.table) then l.(life := Exited)
    else l.(table := StartTable(l.worker, l.table), log := l.log + SpawnEvents(l.worker, l.table))
  }

  // ----------------------------------------------------------------- initialising

  function ResetTable(t: seq<Endpoint>): (s: seq<Endpoint>)
    ensures |s| == |t|
  {
    seq(|t|, k requires 0 <= k < |t| => t[k].(fd := None, eventOpen := false, count := 0))
  }

  function ForgetEvents(t: seq<Endpoint>): seq<Event> {
    if t == [] then []
    else
      var k := |t| - 1;
      if t[k].fd.Some? then ForgetEvents(t[..k]) + [Forgotten(t[k].fd.value)] else ForgetEvents(t[..k])
  }

  /** The table loop of usb_init and of virtual_init. It closes nothing; what it
      overwrites is a descriptor only if the table had been initialised `before`. */
  function Reset(l: Link, before: bool): Link {
    l.(table := ResetTable(l.table), log := l.log + (if before then ForgetEvents(l.table) else []))
  }

  // ------------------------------------------------------------------ installing

  function FillSlot(e: Endpoint, es: seq<Entry>, fds: seq<Fd>, k: nat): Endpoint
    requires |es| == |fds| && forall e :: e in es ==> e.address % 128 >= 1
  {
    match Lookup(es, k)
    case None => e
    case Some(i) =>
      e.(address := es[i].address, transferType := es[i].transferType, maxPacket := es[i].maxPacket,
         fd := Some(fds[i]))
  }

  function FillTable(t: seq<Endpoint>, es: seq<Entry>, fds: seq<Fd>): (s: seq<Endpoint>)
    requires |es| == |fds| && forall e :: e in es ==> e.address % 128 >= 1
    ensures |s| == |t|
  {
    seq(|t|, k requires 0 <= k < |t| => FillSlot(t[k], es, fds, k))
  }

  function Install(l: Link, r: Record): Link {
    if !Measures(r.body, |r.fds|) then l.(life := Exited)
    else
      var es := Entries(r.body, |r.fds|);
      if !Placeable(es, MaxNumber(l.worker)) then l.(life := Exited)
      else
        var c := CloseEndpoints(l);
        c.(table := FillTable(c.table, es, r.fds), generation := r.generation)
  }

  // ----------------------------------------------------------------- configuring

  datatype Verdict = Serving | Rejected | Nothing

  datatype Reply = Reply(link: Link, verdict: Verdict, rest: seq<Record>)

  function Send(l: Link, kind: byte, requestId: u32): Link {
    l.(log := l.log + [Sent(kind, l.generation, requestId)])
  }

  /** Takes a request id; the id after 2^32 - 1 ends the process. */
  function SendConfiguration(l: Link): Link {
    var next := (l.nextRequestId + 1) % 0x1_0000_0000;
    if l.nextRequestId == 0 then l.(life := Exited)
    else Send(l.(nextRequestId := next), KIND_CONFIGURE, l.nextRequestId)
  }

  predicate IsRejection(l: Link, id: u32, r: Record) {
    r.kind == KIND_CONFIGURATION_REJECTED && r.generation == l.generation && r.requestId == id && r.fds == []
  }

  predicate IsQuiesce(l: Link, id: u32, r: Record) {
    r.kind == KIND_QUIESCE && r.generation == l.generation && r.requestId == id && r.body == [] && r.fds == []
  }

  /** QUIESCE outside a configuration. */
  predicate IsRuntimeQuiesce(l: Link, r: Record) {
    r.kind == KIND_QUIESCE && r.generation == l.generation && r.body == [] && r.fds == []
  }

  /** A kind byte and the 64-bit activation. */
  const BUS_EVENT_BODY_LENGTH := 9

  function Be64(b: seq<byte>): nat
    requires |b| == 8
  {
    Be32(b[..4]) * 0x1_0000_0000 + Be32(b[4..])
  }

  predicate IsBusEvent(l: Link, r: Record) {
    r.generation == l.generation && r.requestId == 0 && |r.body| == BUS_EVENT_BODY_LENGTH && r.fds == []
  }

  function Quiesce(l: Link, id: u32): Link {
    Send(CloseEndpoints(l), KIND_QUIESCED, id)
  }

  function Await(l: Link, id: u32, replacement: bool, quiesced: bool, inbox: seq<Record>): Reply
    decreases |inbox|
  {
    if inbox == [] then Reply(l.(life := Blocked), Nothing, [])
    else
      var r, rest := inbox[0], inbox[1..];
      var heard := l.(log := l.log + [Received(r)]);
      if IsRejection(l, id, r) then Reply(heard, Rejected, rest)
      else if replacement && !quiesced && IsQuiesce(l, id, r) then
        Await(Quiesce(heard, id), id, replacement, true, rest)
      else if r.kind == KIND_USB_ENDPOINTS && quiesced && r.requestId == id then
        var i := Install(heard, r);
        if i.life.Exited? then Reply(i, Nothing, rest) else Reply(Send(i, KIND_SERVING, id), Serving, rest)
      else Reply(heard.(life := Exited), Nothing, rest)
  }

  function Configure(l: Link, replacement: bool, inbox: seq<Record>): Reply {
    var asked := SendConfiguration(l);
    if asked.life.Exited? then Reply(asked, Nothing, inbox)
    else Await(asked, l.nextRequestId, replacement, !replacement, inbox)
  }

  // ----------------------------------------------------------- the C code itself

  /** `v` is what the specification says, up to leftovers of a process that ends. */
  predicate Agrees(v: Link, spec: Link) {
    v.life == spec.life && (!spec.life.Exited? ==> v == spec)
  }

  class Port {
    const worker: Worker
    const endpoints: array<Endpoint>
    var life: Life
    var enabled: bool
    var generation: u32
    var nextRequestId: u32
    ghost var log: seq<Event>

    ghost predicate Valid()
      reads this
    {
      endpoints.Length == Slots(worker)
    }

    ghost function View(): (l: Link)
      reads this, endpoints
    {
      Link(worker, life, enabled, generation, nextRequestId, endpoints[..], log)
    }

    constructor (w: Worker)
      ensures Valid() && fresh(endpoints) && worker == w
      ensures View() == Zeroed(w)
    {
      worker := w;
      endpoints := new Endpoint[Slots(w)](_ => ZERO_ENDPOINT);
      life, enabled, generation, nextRequestId, log := Alive, false, 0, 1, [];
      new;
      assert endpoints[..] == seq(Slots(w), _ => ZERO_ENDPOINT);
    }

    /** The loop of usb_init, and of virtual_init. */
    method ResetEndpoints(before: bool)
      requires Valid()
      modifies this`log, endpoints
      ensures View() == Reset(old(View()), before)
    {
      ghost var was := endpoints[..];
      ghost var start := log;
      for k := 0 to endpoints.Length
        invariant forall j :: k <= j < endpoints.Length ==> endpoints[j] == was[j]
        invariant forall j :: 0 <= j < k ==> endpoints[j] == was[j].(fd := None, eventOpen := false, count := 0)
        invariant log == start + (if before then ForgetEvents(was[..k]) else [])
      {
        assert was[..k + 1][..k] == was[..k];
        var e := endpoints[k];
        if before && e.fd.Some? {
          log := log + [Forgotten(e.fd.value)];
        }
        endpoints[k] := e.(fd := None, eventOpen := false, count := 0);
      }
      assert was[..|was|] == was;
      assert endpoints[..] == ResetTable(was);
    }

    method StopEndpointThreads()
      requires Valid()
      modifies this`log, endpoints
      ensures View() == StopThreads(old(View()))
    {
      ghost var was := endpoints[..];
      ghost var before := log;
      for k := 0 to endpoints.Length
        invariant forall j :: k <= j < endpoints.Length ==> endpoints[j] == was[j]
        invariant forall j :: 0 <= j < k ==> endpoints[j] == StopSlot(worker, j, was[j])
        invariant log == before + JoinEvents(worker, was[..k])
      {
        assert was[..k + 1][..k] == was[..k];
        var e := endpoints[k];
        assert e == was[k];
        if Threaded(worker, k) {
          if e.running {
            log := log + [Joined(k)];
          }
          endpoints[k] := e.(running := false, threads := e.threads.(pending := false), eventOpen := false, count := 0,
                             buffers := false, length := 0, occupied := false);
        }
      }
      assert was[..|was|] == was;
      assert endpoints[..] == StopTable(worker, was);
    }

    method StartEndpointThreads()
      requires Valid() && life.Alive?
      modifies this`log, this`life, endpoints
      ensures Agrees(View(), StartThreads(old(View())))
    {
      ghost var was := endpoints[..];
      ghost var before := log;
      for k := 0 to endpoints.Length
        invariant life.Alive? && forall j :: k <= j < endpoints.Length ==> endpoints[j] == was[j]
        invariant forall j :: 0 <= j < k ==> endpoints[j] == StartSlot(worker, j, was[j])
        invariant log == before + SpawnEvents(worker, was[..k])
        invariant worker.Legacy? ==> forall j :: 0 <= j < k && Startable(worker, j, was[j]) ==> was[j].maxPacket > 0
      {
        assert was[..k + 1][..k] == was[..k];
        var e := endpoints[k];
        assert e == was[k];
        if e.fd.Some? && Threaded(worker, k) {
          if worker.Legacy? && e.maxPacket == 0 {
            life := Exited;
            return;
          }
          if worker.Legacy? {
            e := e.(count := 0, length := 0, occupied := false);
          }
          log := log + [Spawned(k)];
          endpoints[k] := e.(buffers := true, eventOpen := true, threads := Overwrite(e), running := true);
        }
      }
      assert was[..|was|] == was;
      assert endpoints[..] == StartTable(worker, was);
    }

    /** The loop of close_endpoints. */
    method CloseFiles()
      requires Valid()
      modifies this`log, endpoints
      ensures endpoints[..] == CloseTable(old(endpoints[..]))
      ensures log == old(log) + CloseEvents(old(endpoints[..]))
    {
      ghost var was := endpoints[..];
      ghost var before := log;
      for k := 0 to endpoints.Length
        invariant forall j :: k <= j < endpoints.Length ==> endpoints[j] == was[j]
        invariant forall j :: 0 <= j < k ==> endpoints[j] == was[j].(fd := None)
        invariant log == before + CloseEvents(was[..k])
      {
        assert was[..k + 1][..k] == was[..k];
        var e := endpoints[k];
        if e.fd.Some? {
          log := log + [Closed(k, e.fd.value)];
          endpoints[k] := e.(fd := None);
        }
      }
      assert was[..|was|] == was;
    }

    method CloseAllEndpoints()
      requires Valid()
      modifies this`log, this`enabled, endpoints
      ensures View() == CloseEndpoints(old(View()))
    {
      enabled := false;
      StopEndpointThreads();
      CloseFiles();
    }

    /** The loop of install_endpoints, after the table has been closed. */
    method InstallLoop(r: Record) returns (ok: bool)
      requires Valid() && life.Alive? && Measures(r.body, |r.fds|)
      requires forall k :: 0 <= k < endpoints.Length ==> endpoints[k].fd.None?
      modifies endpoints
      ensures ok <==> Placeable(Entries(r.body, |r.fds|), MaxNumber(worker))
      ensures ok ==> endpoints[..] == FillTable(old(endpoints[..]), Entries(r.body, |r.fds|), r.fds)
    {
      ghost var was := endpoints[..];
      var count := Be16(r.body[..2]);
      ghost var es := Entries(r.body, count);
      AddressesAndSlots(MaxNumber(worker));
      for i := 0 to count
        invariant Placeable(es[..i], MaxNumber(worker))
        invariant endpoints[..] == FillTable(was, es[..i], r.fds[..i])
      {
        var entry := EntryAt(r.body, i);
        PlaceablePrefix(es, i, MaxNumber(worker));
        if !ValidAddress(entry.address, MaxNumber(worker)) {
          return false;
        }
        var k := SlotOf(entry.address);
        FillOneMore(es, r.fds, was, i, MaxNumber(worker));
        ghost var before := endpoints[..];
        if endpoints[k].fd.Some? {
          assert !Placeable(es[..i + 1], MaxNumber(worker));
          return false;
        }
        endpoints[k] := endpoints[k].(address := entry.address, transferType := entry.transferType,
                                      maxPacket := entry.maxPacket, fd := Some(r.fds[i]));
        assert endpoints[..] == before[k := endpoints[k]];
      }
      assert es[..count] == es && r.fds[..count] == r.fds;
      return true;
    }

    /** install_endpoints */
    method InstallEndpoints(r: Record)
      requires Valid() && life.Alive?
      modifies this`log, this`enabled, this`generation, this`life, endpoints
      ensures Agrees(View(), Install(old(View()), r))
    {
      if |r.body| < 2 {
        life := Exited;
        return;
      }
      var count := Be16(r.body[..2]);
      if |r.body| != 2 + (count as int) * 4 || |r.fds| != count {
        life := Exited;
        return;
      }
      CloseAllEndpoints();
      ghost var closed := View();
      assert forall k :: 0 <= k < endpoints.Length ==> closed.table[k].fd.None?;
      var ok := InstallLoop(r);
      if !ok {
        life := Exited;
        return;
      }
      generation := r.generation;
    }

    /** send_configuration, and the CONFIGURE of an ejection or of usb_init: the
        personality bundle in the body is built by code outside this model. */
    method SendConfigure() returns (requestId: u32)
      requires Valid() && life.Alive?
      modifies this`log, this`nextRequestId, this`life
      ensures Agrees(View(), SendConfiguration(old(View()))) && requestId == old(nextRequestId)
    {
      requestId := nextRequestId;
      nextRequestId := (nextRequestId + 1) % 0x1_0000_0000;
      if requestId == 0 {
        life := Exited;
      } else {
        log := log + [Sent(KIND_CONFIGURE, generation, requestId)];
      }
    }

    /** configure_until_endpoints over the records that will arrive; with none left it
        is still blocked in receive_record. */
    method ConfigureUntilEndpoints(replacement: bool, inbox: seq<Record>) returns (verdict: Verdict, rest: seq<Record>)
      requires Valid() && life.Alive?
      modifies this, endpoints
      ensures var spec := Configure(old(View()), replacement, inbox);
        Agrees(View(), spec.link) && verdict == spec.verdict && rest == spec.rest
    {
      var requestId := SendConfigure();
      rest := inbox;
      if life.Exited? {
        return Nothing, rest;
      }
      var quiesced := !replacement;
      ghost var spec := Configure(old(View()), replacement, inbox);
      while true
        invariant Valid() && life.Alive?
        invariant Await(View(), requestId, replacement, quiesced, rest) == spec
        decreases |rest|
      {
        if rest == [] {
          life := Blocked;
          return Nothing, rest;
        }
        var r := rest[0];
        rest := rest[1..];
        log := log + [Received(r)];
        if r.kind == KIND_CONFIGURATION_REJECTED && r.generation == generation && r.requestId == requestId
           && r.fds == []
        {
          return Rejected, rest;
        }
        if r.kind == KIND_QUIESCE && replacement && !quiesced && r.generation == generation
           && r.requestId == requestId && r.body == [] && r.fds == []
        {
          CloseAllEndpoints();
          log := log + [Sent(KIND_QUIESCED, generation, requestId)];
          quiesced := true;
        } else if r.kind == KIND_USB_ENDPOINTS && quiesced && r.requestId == requestId {
          InstallEndpoints(r);
          if life.Exited? {
            return Nothing, rest;
          }
          log := log + [Sent(KIND_SERVING, generation, requestId)];
          return Serving, rest;
        } else {
          life := Exited;
          return Nothing, rest;
        }
      }
    }
  }

  lemma PlaceablePrefix(es: seq<Entry>, i: nat, maxNumber: nat)
    requires i < |es|
    ensures Placeable(es, maxNumber) ==> ValidAddress(es[i].address, maxNumber) && Placeable(es[..i + 1], maxNumber)
  {}

  lemma LookupOneMore(es: seq<Entry>, i: nat, k: nat)
    requires i < |es| && forall e :: e in es ==> e.address % 128 >= 1
    ensures Lookup(es[..i + 1], k) == if SlotOf(es[i].address) == k then Some(i) else Lookup(es[..i], k)
  {
    assert es[..i + 1][..i] == es[..i];
  }

  lemma AddressIsFresh(es: seq<Entry>, i: nat, maxNumber: nat)
    requires i < |es| && maxNumber <= 127
    requires Placeable(es[..i], maxNumber) && ValidAddress(es[i].address, maxNumber)
    ensures Lookup(es[..i], SlotOf(es[i].address)).None? <==> Placeable(es[..i + 1], maxNumber)
  {
    var before, more := es[..i], es[..i + 1];
    assert forall j :: 0 <= j < i ==> more[j] == before[j];
    var found := Lookup(before, SlotOf(es[i].address));
    if found.Some? {
      SameSlotSameAddress(before[found.value].address, es[i].address, maxNumber);
      assert more[found.value].address == more[i].address;
    }
  }

  lemma SameSlotSameAddress(a: byte, b: byte, maxNumber: nat)
    requires maxNumber <= 127 && ValidAddress(a, maxNumber) && ValidAddress(b, maxNumber) && SlotOf(a) == SlotOf(b)
    ensures a == b && SlotOf(a) < 2 * maxNumber
  {
    AddressesAndSlots(maxNumber);
    assert AddressOf(SlotOf(a)) == a && AddressOf(SlotOf(b)) == b;
  }

  /** Entry `i` finds its slot open exactly when no earlier entry took its address,
      and then fills that slot and no other. */
  lemma PlaceOneMore(es: seq<Entry>, fds: seq<Fd>, was: seq<Endpoint>, i: nat, maxNumber: nat)
    requires i < |es| == |fds| && maxNumber <= 127 && |was| == 2 * maxNumber
    requires Placeable(es[..i], maxNumber) && ValidAddress(es[i].address, maxNumber)
    requires forall k :: 0 <= k < |was| ==> was[k].fd.None?
    ensures SlotOf(es[i].address) < |was|
    ensures FillSlot(was[SlotOf(es[i].address)], es[..i], fds[..i], SlotOf(es[i].address)).fd.None? <==>
      Placeable(es[..i + 1], maxNumber)
    ensures forall k :: 0 <= k < |was| ==>
      FillSlot(was[k], es[..i + 1], fds[..i + 1], k) ==
        if k == SlotOf(es[i].address) then
          was[k].(address := es[i].address, transferType := es[i].transferType, maxPacket := es[i].maxPacket,
                  fd := Some(fds[i]))
        else FillSlot(was[k], es[..i], fds[..i], k)
  {
    SameSlotSameAddress(es[i].address, es[i].address, maxNumber);
    AddressIsFresh(es, i, maxNumber);
    forall k | 0 <= k < |was|
      ensures Lookup(es[..i + 1], k) == if SlotOf(es[i].address) == k then Some(i) else Lookup(es[..i], k)
    {
      LookupInPrefix(es, i, k, maxNumber);
    }
  }

  lemma LookupInPrefix(es: seq<Entry>, i: nat, k: nat, maxNumber: nat)
    requires i < |es| && maxNumber <= 127 && Placeable(es[..i], maxNumber) && ValidAddress(es[i].address, maxNumber)
    ensures Lookup(es[..i + 1], k) == if SlotOf(es[i].address) == k then Some(i) else Lookup(es[..i], k)
  {
    var es1 := es[..i + 1];
    assert es1[..i] == es[..i] && es1[i] == es[i] && es1[..i + 1] == es1;
    LookupOneMore(es1, i, k);
  }

  lemma FillOneMore(es: seq<Entry>, fds: seq<Fd>, was: seq<Endpoint>, i: nat, maxNumber: nat)
    requires i < |es| == |fds| && maxNumber <= 127 && |was| == 2 * maxNumber
    requires Placeable(es[..i], maxNumber) && ValidAddress(es[i].address, maxNumber)
    requires forall k :: 0 <= k < |was| ==> was[k].fd.None?
    ensures var k := SlotOf(es[i].address);
      var before := FillTable(was, es[..i], fds[..i]);
      && k < |was|
      && (before[k].fd.None? <==> Placeable(es[..i + 1], maxNumber))
      && (before[k].fd.None? ==>
            FillTable(was, es[..i + 1], fds[..i + 1])
            == before[k := before[k].(address := es[i].address, transferType := es[i].transferType,
                                      maxPacket := es[i].maxPacket, fd := Some(fds[i]))])
  {
    PlaceOneMore(es, fds, was, i, maxNumber);
  }
}
