/** Theorems about every run of the legacy driver. */
module LegacyFacts {
  import opened Common
  import opened Wire
  import opened EndpointMap
  import opened Generation
  import opened Ledger
  import opened GenerationFacts
  import opened LegacyUsb
  import Control

  // ------------------------------------------------------------------ consistency

  /** Only addresses, types and sizes differ. */
  predicate SameSlots(t: seq<Endpoint>, u: seq<Endpoint>) {
    && |u| == |t|
    && forall k :: 0 <= k < |t| ==>
         && u[k] == t[k].(address := u[k].address, transferType := u[k].transferType, maxPacket := u[k].maxPacket)
         && (k < 254 && t[k].address == AddressOf(k) ==> u[k].address == AddressOf(k))
  }

  lemma {:induction false} SetUpKeepsSlots(l: Link, setups: seq<EpSetup>)
    requires |l.table| == 14
    ensures var m := SetUp(l, setups);
      m.life.Exited? || (m == l.(table := m.table) && SameSlots(l.table, m.table))
  {
    if setups != [] {
      var front, s := setups[..|setups| - 1], setups[|setups| - 1];
      SetUpKeepsSlots(l, front);
      AddressesAndSlots(7);
      if !SetUp(l, front).life.Exited? && 1 <= s.address % 128 <= 7 {
        assert AddressOf(SlotOf(s.address)) == s.address;
      }
    }
  }

  lemma SetUpIsConsistent(l: Link, setups: seq<EpSetup>)
    requires Consistent(l) && !SetUp(l, setups).life.Exited?
    ensures Consistent(SetUp(l, setups))
  {
    SetUpKeepsSlots(l, setups);
    var m := SetUp(l, setups);
    forall k | 0 <= k < |l.table| ensures SlotOk(k, m.table[k], m.enabled) {
      assert SlotOk(k, l.table[k], l.enabled);
    }
  }

  lemma SetUpIsCalm(l: Link, setups: seq<EpSetup>)
    requires |l.table| == 14 && !SetUp(l, setups).life.Exited?
    ensures Calm(l, SetUp(l, setups))
  {
    SetUpKeepsSlots(l, setups);
    SameKeeps(l, SetUp(l, setups));
  }

  lemma HaltedIsConsistent(l: Link)
    requires Consistent(l)
    ensures Consistent(Halt(l))
  {
    forall k | 0 <= k < |l.table| ensures SlotOk(k, Halt(l).table[k], false) {
      assert SlotOk(k, l.table[k], l.enabled);
    }
  }

  /** Nothing is left of an IN endpoint but its file. */
  predicate InSlotIdle(k: nat, e: Endpoint) {
    && e.threads.late <= e.threads.orphans
    && (k % 2 == 1 ==>
          !e.running && !e.eventOpen && !e.buffers && !e.occupied && e.count == 0 && e.threads == Threads(false, 0, 0))
  }

  /** What a table looks like to a takedown, whether it was consistent or has just been
      reset. */
  predicate InSlotsIdle(l: Link) {
    l.worker.Legacy? && WellSized(l) && forall k :: 0 <= k < |l.table| ==> InSlotIdle(k, l.table[k])
  }

  lemma ConsistentIsIdle(l: Link)
    requires Consistent(l)
    ensures InSlotsIdle(l)
  {
    forall k | 0 <= k < |l.table| ensures InSlotIdle(k, l.table[k]) {
      assert SlotOk(k, l.table[k], l.enabled);
    }
  }

  lemma ClosedIsConsistent(l: Link)
    requires InSlotsIdle(l)
    ensures Consistent(CloseEndpoints(l)) && !CloseEndpoints(l).enabled
  {
    var c := CloseEndpoints(l);
    forall k | 0 <= k < |l.table| ensures SlotOk(k, c.table[k], false) {
      assert InSlotIdle(k, l.table[k]);
      assert c.table[k] == StopSlot(Legacy, k, l.table[k]).(fd := None);
    }
  }

  lemma InstalledIsConsistent(l: Link, r: Record)
    requires InSlotsIdle(l)
    ensures var i := Install(l, r);
      i.life.Exited? || (Consistent(i) && !i.enabled)
  {
    ClosedIsConsistent(l);
    if Measures(r.body, |r.fds|) && Placeable(Entries(r.body, |r.fds|), 7) {
      var es := Entries(r.body, |r.fds|);
      var c := CloseEndpoints(l);
      var i := Install(l, r);
      AddressesAndSlots(7);
      forall k | 0 <= k < |i.table| ensures SlotOk(k, i.table[k], false) {
        assert SlotOk(k, c.table[k], false);
        assert i.table[k] == FillSlot(c.table[k], es, r.fds, k);
      }
    }
  }

  lemma StartedIsConsistent(l: Link)
    requires Consistent(l) && CanStart(l.worker, l.table)
    ensures Consistent(StartThreads(l).(enabled := true))
  {
    var m := StartThreads(l).(enabled := true);
    forall k | 0 <= k < |l.table| ensures SlotOk(k, m.table[k], true) {
      assert SlotOk(k, l.table[k], l.enabled);
      assert m.table[k] == StartSlot(Legacy, k, l.table[k]);
    }
  }

  lemma DroppedIsConsistent(l: Link)
    requires Consistent(l)
    ensures Consistent(l.(enabled := false))
  {
    forall k | 0 <= k < |l.table| ensures SlotOk(k, l.table[k], false) {
      assert SlotOk(k, l.table[k], l.enabled);
    }
  }

  lemma SameTableIsConsistent(l: Link, m: Link)
    requires Consistent(l) && m.table == l.table && m.enabled == l.enabled && m.worker == l.worker
    ensures Consistent(m)
  {}

  lemma {:induction false} AwaitIsConsistent(l: Link, id: u32, replacement: bool, quiesced: bool, inbox: seq<Record>)
    requires InSlotsIdle(l)
    ensures var a := Await(l, id, replacement, quiesced, inbox);
      && (Consistent(l) ==> a.link.life.Exited? || Consistent(a.link))
      && (a.verdict.Serving? ==> Consistent(a.link))
    decreases |inbox|
  {
    if inbox != [] {
      var r := inbox[0];
      var heard := Heard(l, r);
      InstalledIsConsistent(heard, r);
      ClosedIsConsistent(heard);
      var q := Quiesce(heard, id);
      SameTableIsConsistent(CloseEndpoints(heard), q);
      ConsistentIsIdle(q);
      if replacement && !quiesced && IsQuiesce(l, id, r) && !IsRejection(l, id, r) {
        AwaitIsConsistent(q, id, replacement, true, inbox[1..]);
      }
    }
  }

  /** A configuration, however it ends short of exit. */
  lemma ConfigureIsGood(l: Link, replacement: bool, inbox: seq<Record>)
    requires Good(l) && !l.life.Exited?
    ensures var m := Configure(l, replacement, inbox).link;
      m.life.Exited? || (Good(m) && Quietly(l, m))
  {
    ConfigureIsQuiet(l, replacement, inbox);
    ConsistentIsIdle(l);
    var asked := SendConfiguration(l);
    if !asked.life.Exited? {
      AwaitIsConsistent(asked, l.nextRequestId, replacement, !replacement, inbox);
    }
  }

  // -------------------------------------------------------------------- one step

  /** From d to e the process ended, or all is in order, and a helper was started over
      another one exactly when `doubled` says so. */
  ghost predicate Goes(d: Driver, e: Driver, doubled: bool) {
    e.link.life.Exited? ||
    (&& Good(e.link) && SameDrift(d.link, e.link) && (Follows(d) ==> Follows(e)) && e.initialized == d.initialized
     && (SpawnedOnce(e.link.log) <==> SpawnedOnce(d.link.log) && !doubled))
  }

  lemma GoesTrans(d: Driver, e: Driver, f: Driver, a: bool, b: bool)
    requires Goes(d, e, a) && Goes(e, f, b) && !e.link.life.Exited?
    ensures Goes(d, f, a || b)
  {
    if !f.link.life.Exited? {
      SameDriftTrans(d.link, e.link, f.link);
    }
  }

  lemma CalmGoes(d: Driver, m: Link)
    requires Good(d.link) && Consistent(m) && Calm(d.link, m)
    ensures Goes(d, d.(link := m), false)
  {}

  lemma QuietGoes(d: Driver, m: Link)
    requires Good(d.link) && Quietly(d.link, m) && (m.life.Exited? || Consistent(m))
    ensures Goes(d, d.(link := m), false)
  {}

  lemma DropGoes(d: Driver)
    requires Good(d.link)
    ensures Goes(d, Drop(d), false)
  {
    DroppedIsConsistent(d.link);
    SameKeeps(d.link, Drop(d).link);
  }

  lemma SlotGoes(d: Driver, k: nat, e: Endpoint)
    requires Good(d.link) && k < |d.link.table| && SlotOk(k, e, d.link.enabled)
    requires e == d.link.table[k].(occupied := e.occupied, count := e.count, threads := e.threads)
    requires e.threads.orphans == d.link.table[k].threads.orphans
    ensures Goes(d, SetSlot(d, k, e), false)
  {
    var m := SetSlot(d, k, e).link;
    SameKeeps(d.link, m);
    forall j | 0 <= j < |m.table| ensures SlotOk(j, m.table[j], m.enabled) {
      assert SlotOk(j, d.link.table[j], d.link.enabled);
    }
  }

  lemma StoreGoes(d: Driver, k: nat, orphan: bool, empty: bool)
    requires Good(d.link)
    ensures Goes(d, Store(d, k, orphan, empty), false)
  {
    StandingGoes(d);
    if k < |d.link.table| && CanStore(d.link.table[k], orphan) && !d.link.table[k].occupied {
      assert SlotOk(k, d.link.table[k], d.link.enabled);
      SlotGoes(d, k, Stored(d.link.table[k], orphan));
    }
  }

  lemma AnnounceGoes(d: Driver, k: nat, orphan: bool)
    requires Good(d.link)
    ensures Goes(d, Announce(d, k, orphan), false)
  {
    StandingGoes(d);
    if k < |d.link.table| && CanNotify(d.link.table[k], orphan) && d.link.table[k].eventOpen {
      assert SlotOk(k, d.link.table[k], d.link.enabled);
      SlotGoes(d, k, Notified(d.link.table[k], orphan));
    }
  }

  lemma QuiesceGoes(d: Driver, r: Record)
    requires Good(d.link) && !d.link.life.Exited? && r.fds == [] && r.kind != KIND_USB_BUS_EVENT
    ensures Goes(d, d.(link := Quiesce(Heard(d.link, r), r.requestId)), false)
  {
    AnswerIsQuiet(d.link, r);
    var heard := Heard(d.link, r);
    SameTableIsConsistent(d.link, heard);
    ConsistentIsIdle(heard);
    ClosedIsConsistent(heard);
    SameTableIsConsistent(CloseEndpoints(heard), Quiesce(heard, r.requestId));
  }

  lemma ControlGoes(d: Driver, r: Record, setups: seq<EpSetup>)
    requires Good(d.link) && !d.link.life.Exited? && r.fds == [] && r.kind != KIND_USB_BUS_EVENT
    ensures var m := SetUp(Heard(d.link, r), setups);
      m.life.Exited? || Goes(d, d.(link := Send(m, KIND_USB_CONTROL_RESPONSE, r.requestId)), false)
  {
    var heard := d.(link := Heard(d.link, r));
    AnswerIsQuiet(d.link, r);
    SameTableIsConsistent(d.link, heard.link);
    QuietGoes(d, heard.link);
    var m := SetUp(heard.link, setups);
    if !m.life.Exited? {
      SetUpIsCalm(heard.link, setups);
      SetUpIsConsistent(heard.link, setups);
      CalmGoes(heard, m);
      GoesTrans(d, heard, d.(link := m), false, false);
      SentGoes(d.(link := m), r.requestId);
      GoesTrans(d, d.(link := m), d.(link := Send(m, KIND_USB_CONTROL_RESPONSE, r.requestId)), false, false);
    }
  }

  lemma SentGoes(d: Driver, id: u32)
    requires Good(d.link)
    ensures Goes(d, d.(link := Send(d.link, KIND_USB_CONTROL_RESPONSE, id)), false)
  {
    EventIsQuiet(d.link, Sent(KIND_USB_CONTROL_RESPONSE, d.link.generation, id));
    SameTableIsConsistent(d.link, Send(d.link, KIND_USB_CONTROL_RESPONSE, id));
  }

  /** Hearing a bus event moves nothing by itself. */
  lemma HeardBus(d: Driver, r: Record)
    requires Good(d.link) && r.fds == []
    ensures Good(Heard(d.link, r)) && SameDrift(d.link, Heard(d.link, r))
    ensures SpawnedOnce(Heard(d.link, r).log) <==> SpawnedOnce(d.link.log)
  {
    EventKeeps(d.link, Received(r));
    HelperStep(d.link.log, Received(r), 0);
    SameTableIsConsistent(d.link, Heard(d.link, r));
  }

  /** What a bus event does to the link, apart from who follows whom. */
  lemma BusLinkGoes(l: Link, kind: byte, answer: Answer)
    requires Good(l) && !l.life.Exited?
    ensures var m := BusLink(l, kind, answer);
      m.life.Exited? ||
      (&& Good(m) && SameDrift(l, m) && SameBus(l.log, m.log)
       && (m.enabled ==> kind == 2 || (l.enabled && (kind == 5 || kind == 6)))
       && (SpawnedOnce(m.log) <==> SpawnedOnce(l.log) && !(kind == 2 && !l.enabled && !answer.stalled && Lingers(l))))
  {
    if kind == 0 || kind == 1 || kind == 3 {
      HaltIsQuiet(l);
      HaltedIsConsistent(l);
    } else if kind == 2 && !l.enabled {
      EnableGoes(l, answer);
    } else {
      SameKeeps(l, l);
    }
  }

  lemma EnableGoes(l: Link, answer: Answer)
    requires Good(l) && !l.life.Exited? && !l.enabled
    ensures var m := BusLink(l, 2, answer);
      m.life.Exited? ||
      (&& Good(m) && SameDrift(l, m) && SameBus(l.log, m.log)
       && (SpawnedOnce(m.log) <==> SpawnedOnce(l.log) && !Lingers(l)))
  {
    var s := SetUp(l, answer.setups);
    if !s.life.Exited? && !answer.stalled && CanStart(s.worker, s.table) {
      SetUpIsCalm(l, answer.setups);
      SetUpIsConsistent(l, answer.setups);
      SetUpKeepsSlots(l, answer.setups);
      StartGoes(s);
      SameDriftTrans(l, s, StartThreads(s).(enabled := true));
      assert forall k :: 0 <= k < |l.table| ==> s.table[k].running == l.table[k].running;
    }
  }

  lemma StartGoes(l: Link)
    requires Good(l) && CanStart(l.worker, l.table) && !l.enabled
    ensures var m := StartThreads(l).(enabled := true);
      && Good(m) && SameDrift(l, m) && SameBus(l.log, m.log)
      && (SpawnedOnce(m.log) <==> SpawnedOnce(l.log) && !Lingers(l))
  {
    StartedIsConsistent(l);
    StartKeeps(l);
    if SpawnedOnce(l.log) {
      forall k | 0 <= k < |l.table|
        ensures Startable(Legacy, k, l.table[k]) ==> Helpers(l.log, k) == if l.table[k].running then 1 else 0
        ensures l.table[k].running ==> Startable(Legacy, k, l.table[k])
      {
        OnceFlagCounts(l.log, k);
        assert SlotOk(k, l.table[k], l.enabled);
      }
    }
  }

  lemma BusEventGoes(d: Driver, r: Record, answer: Answer)
    requires Good(d.link) && !d.link.life.Exited? && r.kind == KIND_USB_BUS_EVENT && IsBusEvent(d.link, r)
    ensures Goes(d, BusEvent(d.(link := Heard(d.link, r)), r, answer), Enables(d, r, answer) && Lingers(d.link))
  {
    var heard := Heard(d.link, r);
    HeardBus(d, r);
    HistoryStep(d.link.log, Received(r));
    BusLinkGoes(heard, r.body[0], answer);
    var m := BusLink(heard, r.body[0], answer);
    if !m.life.Exited? {
      SameDriftTrans(d.link, heard, m);
      assert LastBus(m.log) == Some(r.body);
    }
  }

  lemma RecordGoes(d: Driver, r: Record, answer: Answer)
    requires Good(d.link) && !d.link.life.Exited?
    ensures Goes(d, RuntimeRecord(d, r, answer), Enables(d, r, answer) && Lingers(d.link))
  {
    if r.kind == KIND_USB_BUS_EVENT {
      if IsBusEvent(d.link, r) {
        BusEventGoes(d, r, answer);
      }
    } else {
      OtherRecordGoes(d, r, answer);
    }
  }

  lemma OtherRecordGoes(d: Driver, r: Record, answer: Answer)
    requires Good(d.link) && !d.link.life.Exited? && r.kind != KIND_USB_BUS_EVENT
    ensures Goes(d, RuntimeRecord(d, r, answer), false)
  {
    if r.kind == KIND_QUIESCE && r.fds == [] {
      QuiesceGoes(d, r);
    } else if r.kind == KIND_USB_CONTROL_REQUEST && r.fds == [] {
      ControlGoes(d, r, answer.setups);
    }
  }

  lemma {:induction false} DrainGoes(d: Driver, hits: seq<Hit>)
    requires Good(d.link)
    ensures Goes(d, Drain(d, hits), DrainDoubles(d, hits))
    decreases hits, 0
  {
    if hits != [] && d.link.enabled && d.link.life.Alive? && Fresh(d.link, hits[0].slot) {
      var t := Take(d, hits[0].slot);
      assert SlotOk(hits[0].slot, d.link.table[hits[0].slot], d.link.enabled);
      SlotGoes(d, hits[0].slot, d.link.table[hits[0].slot].(occupied := false, count := 0));
      EffectsGo(t, hits[0].effects);
      var e := Effects(t, hits[0].effects);
      GoesTrans(d, t, e, false, EffectsDouble(t, hits[0].effects));
      if !e.link.life.Exited? {
        DrainGoes(e, hits[1..]);
        GoesTrans(d, e, Drain(e, hits[1..]), EffectsDouble(t, hits[0].effects), DrainDoubles(e, hits[1..]));
      }
    } else {
      StandingGoes(d);
    }
  }

  lemma StandingGoes(d: Driver)
    requires Good(d.link)
    ensures Goes(d, d, false)
  {
    SameKeeps(d.link, d.link);
  }

  lemma {:induction false} EffectsGo(d: Driver, effects: seq<Effect>)
    requires Good(d.link)
    ensures Goes(d, Effects(d, effects), EffectsDouble(d, effects))
    decreases effects, 0
  {
    if effects != [] && d.link.life.Alive? {
      EffectGoes(d, effects[0]);
      var e := Apply(d, effects[0]);
      if !e.link.life.Exited? {
        EffectsGo(e, effects[1..]);
        GoesTrans(d, e, Effects(e, effects[1..]), EffectDoubles(d, effects[0]), EffectsDouble(e, effects[1..]));
      }
    } else {
      StandingGoes(d);
    }
  }

  lemma {:induction false} EffectGoes(d: Driver, e: Effect)
    requires Good(d.link) && d.link.life.Alive?
    ensures Goes(d, Apply(d, e), EffectDoubles(d, e))
    decreases e, 0
  {
    match e
    case Disconnects => DropGoes(d);
    case Reconnects(inbox) => ConfigureIsGood(d.link, true, inbox);
    case Stores(k, orphan, empty) => StoreGoes(d, k, orphan, empty);
    case Notifies(k, orphan) => AnnounceGoes(d, k, orphan);
    case Reenters(record, answer, hits) => PassGoes(d, record, answer, hits);
  }

  lemma {:induction false} PassGoes(d: Driver, record: Option<Record>, answer: Answer, hits: seq<Hit>)
    requires Good(d.link) && d.link.life.Alive?
    ensures Goes(d, Pass(d, record, answer, hits), PassDoubles(d, record, answer, hits))
    decreases hits, 1
  {
    var e := if record.Some? then RuntimeRecord(d, record.value, answer) else d;
    var first := record.Some? && Enables(d, record.value, answer) && Lingers(d.link);
    if record.Some? {
      RecordGoes(d, record.value, answer);
    } else {
      StandingGoes(d);
    }
    if Pollable(d.link.enabled, d.link.table, hits) {
      if !e.link.life.Exited? {
        DrainGoes(e, hits);
        GoesTrans(d, e, Drain(e, hits), first, DrainDoubles(e, hits));
      }
    }
  }

  // -------------------------------------------------------------------- every run

  /** The state usbInit leaves, given the supervisor's records. */
  function Started(inbox: seq<Record>): Driver {
    Init(Boot(), inbox)
  }

  predicate SomeHelper(l: Link) {
    exists k :: 0 <= k < |l.table| && l.table[k].running
  }

  /** What every run keeps. Only a usbInit that found helpers and still waits for its
      answer has flags without files. */
  ghost predicate Kept(d: Driver) {
    d.initialized && Conserved(d.link) && Orderly(d.link) && Follows(d) && d.link.worker.Legacy? && WellSized(d.link)
    && (d.link.life.Alive? ==> Consistent(d.link))
  }

  /** No helper that the handle names, and nothing of its own. */
  predicate Unstaffed(e: Endpoint) {
    !e.running && !e.buffers && !e.threads.pending && (e.threads.orphans == 0 ==> !e.occupied)
  }

  lemma ResetIsConsistent(l: Link, before: bool)
    requires InSlotsIdle(Reset(l, before))
    requires forall k :: 0 <= k < |l.table| ==> Unstaffed(l.table[k])
    ensures Consistent(Reset(l, before))
  {
    var m := Reset(l, before);
    forall k | 0 <= k < |m.table| ensures SlotOk(k, m.table[k], m.enabled) {
      assert InSlotIdle(k, m.table[k]) && Unstaffed(l.table[k]);
      assert m.table[k] == l.table[k].(fd := None, eventOpen := false, count := 0);
    }
  }

  lemma InitLink(d: Driver, inbox: seq<Record>)
    ensures var e := Init(d, inbox);
      var c := Configure(Reset(d.link, d.initialized), false, inbox);
      && e == d.(initialized := true, link := e.link)
      && (e.link.life.Exited? || (e.link == c.link && !c.verdict.Rejected?))
      && (c.verdict.Nothing? ==> !c.link.life.Alive? || !d.link.life.Alive?)
  {}

  lemma FirstInit(inbox: seq<Record>)
    ensures var d := Started(inbox);
      d.link.life.Exited? || (Kept(d) && Consistent(d.link) && SpawnedOnce(d.link.log))
  {
    var b := Boot();
    var r := Reset(b.link, false);
    ZeroedIsOrderly(Legacy);
    ResetKeeps(b.link, false);
    forall x: Fd ensures Drift(r, x) == 0 {
      NothingOpen(r.table, x);
      assert r.log == [];
    }
    ResetIsConsistent(b.link, false);
    InitLink(b, inbox);
    ConfigureIsGood(r, false, inbox);
    if !Configure(r, false, inbox).link.life.Exited? {
      DriftsNowhere(r, Configure(r, false, inbox).link);
    }
  }

  lemma DriftsNowhere(l: Link, m: Link)
    requires Conserved(l) && SameDrift(l, m)
    ensures Conserved(m)
  {
    forall x: Fd ensures Drift(m, x) == 0 {
      assert Drift(m, x) == Drift(l, x);
    }
  }

  lemma ConfigureFromReset(l: Link, inbox: seq<Record>)
    requires InSlotsIdle(l) && Orderly(l) && l.life.Alive?
    ensures var c := Configure(l, false, inbox);
      && Quietly(l, c.link)
      && (c.verdict.Serving? ==> Consistent(c.link)) && (Consistent(l) ==> c.link.life.Exited? || Consistent(c.link))
  {
    ConfigureIsQuiet(l, false, inbox);
    var asked := SendConfiguration(l);
    if !asked.life.Exited? {
      AwaitIsConsistent(asked, l.nextRequestId, false, true, inbox);
    }
  }

  lemma InitGoes(d: Driver, inbox: seq<Record>)
    requires Kept(d) && d.link.life.Alive?
    ensures var e := Init(d, inbox);
      e.link.life.Exited? ||
      (&& Kept(e) && (SpawnedOnce(e.link.log) <==> SpawnedOnce(d.link.log))
       && (!SomeHelper(d.link) ==> Consistent(e.link)))
  {
    var r := Reset(d.link, true);
    ConsistentIsIdle(d.link);
    ResetKeeps(d.link, true);
    DriftsNowhere(d.link, r);
    InitLink(d, inbox);
    ConfigureFromReset(r, inbox);
    var c := Configure(r, false, inbox).link;
    if !c.life.Exited? {
      DriftsNowhere(r, c);
    }
    if !SomeHelper(d.link) {
      forall k | 0 <= k < |d.link.table| ensures Unstaffed(d.link.table[k]) {
        assert SlotOk(k, d.link.table[k], d.link.enabled);
      }
      ResetIsConsistent(d.link, true);
    }
  }

  lemma StepGoes(d: Driver, a: Action)
    requires Kept(d) && d.link.life.Alive?
    ensures var e := Step(d, a);
      e.link.life.Exited? ||
      (&& Kept(e) && (SpawnedOnce(e.link.log) <==> SpawnedOnce(d.link.log) && !DoubleStarts(d, a))
       && (!(a.CallInit? && SomeHelper(d.link)) ==> Consistent(e.link)))
  {
    match a
    case CallInit(inbox) => InitGoes(d, inbox);
    case Happens(e) =>
      EffectGoes(d, e);
      if !Apply(d, e).link.life.Exited? {
        DriftsNowhere(d.link, Apply(d, e).link);
      }
  }

  /** Somewhere in this run an ENABLE found helpers running with the bus not enabled. */
  predicate DoubleStarted(d: Driver, actions: seq<Action>) {
    actions != [] &&
    (var front, a := actions[..|actions| - 1], actions[|actions| - 1];
     DoubleStarted(d, front) || (Run(d, front).link.life.Alive? && DoubleStarts(Run(d, front), a)))
  }

  /** Somewhere in this run usbInit was called again over running helpers. */
  predicate Reinitialised(d: Driver, actions: seq<Action>) {
    actions != [] &&
    (var front, a := actions[..|actions| - 1], actions[|actions| - 1];
     Reinitialised(d, front) || (Run(d, front).link.life.Alive? && a.CallInit? && SomeHelper(Run(d, front).link)))
  }

  lemma {:induction false} EveryRun(inbox: seq<Record>, actions: seq<Action>)
    ensures var d := Run(Started(inbox), actions);
      d.link.life.Exited? ||
      (&& Kept(d) && (SpawnedOnce(d.link.log) <==> !DoubleStarted(Started(inbox), actions))
       && (!Reinitialised(Started(inbox), actions) ==> Consistent(d.link)))
  {
    if actions == [] {
      FirstInit(inbox);
    } else {
      var front, a := actions[..|actions| - 1], actions[|actions| - 1];
      EveryRun(inbox, front);
      if Run(Started(inbox), front).link.life.Alive? {
        StepGoes(Run(Started(inbox), front), a);
      }
    }
  }

  /** Over every run that begins with usbInit: a helper is started on a slot that still
      has one exactly when some ENABLE, at whatever depth, found helpers running with the
      bus not enabled. */
  lemma {:induction false} DoubleStartExactly(inbox: seq<Record>, actions: seq<Action>)
    ensures var log := Run(Started(inbox), actions).link.log;
      Run(Started(inbox), actions).link.life.Exited? ||
      (DoubleStarted(Started(inbox), actions) <==> exists j, k: nat :: 0 <= j < |log| && StartedOver(log, j, k))
  {
    EveryRun(inbox, actions);
    var l := Run(Started(inbox), actions).link;
    if !l.life.Exited? {
      OnceIffNever(l.log);
    }
  }

  /** A file is closed while a helper of its slot lives exactly when one had been started
      over another there; so never in a run without a double start. */
  lemma {:induction false} FilesCloseAfterJoin(inbox: seq<Record>, actions: seq<Action>, i: nat)
    ensures var l := Run(Started(inbox), actions).link;
      !l.life.Exited? && i < |l.log| && l.log[i].Closed? ==>
        && (Helpers(l.log[..i], l.log[i].slot) > 0 <==>
              exists j :: 0 <= j < i && StartedOver(l.log[..i], j, l.log[i].slot))
        && (!DoubleStarted(Started(inbox), actions) ==> Helpers(l.log[..i], l.log[i].slot) == 0)
  {
    EveryRun(inbox, actions);
    var l := Run(Started(inbox), actions).link;
    if !l.life.Exited? && i < |l.log| && l.log[i].Closed? {
      ClosedUnderHelperExactly(l.log, i);
      if SpawnedOnce(l.log) {
        OnceClosesAfterJoin(l.log, i);
      }
    }
  }

  /** A helper was started over another one on slot k. */
  predicate EverStartedOver(log: seq<Event>, k: nat) {
    exists j :: 0 <= j < |log| && StartedOver(log, j, k)
  }

  /** The orphans of a slot are there exactly when a helper was started over another one. */
  lemma OrphansExactly(l: Link, k: nat)
    requires Orderly(l) && k < |l.table|
    ensures l.table[k].threads.orphans > 0 <==> EverStartedOver(l.log, k)
    ensures Helpers(l.log, k) ==
      l.table[k].threads.orphans + if l.table[k].running && Threaded(l.worker, k) then 1 else 0
  {
    assert Flagged(l.log, k) <==> l.table[k].running && Threaded(l.worker, k);
    if j :| 0 <= j < |l.log| && StartedOver(l.log, j, k) {
      OverwrittenHelperStays(l.log, j, k);
    } else {
      FlagCountsHelpers(l.log, k);
    }
  }

  /** In every reachable state: thread flag, eventfd and buffers of an endpoint come and
      go together and only over an open OUT file; while the bus is enabled every OUT file
      has its thread; and unless a helper was started over another one there, packet and
      notification of the slot go together. */
  lemma {:induction false} LifecycleSafety(inbox: seq<Record>, actions: seq<Action>, k: nat)
    requires k < 14
    ensures var l := Run(Started(inbox), actions).link;
      l.life.Alive? || (l.life.Blocked? && !Reinitialised(Started(inbox), actions)) ==>
        |l.table| == 14 &&
        var e := l.table[k];
        && e.running == e.eventOpen == e.buffers
        && (e.running ==> e.fd.Some? && k % 2 == 0)
        && (l.enabled && k % 2 == 0 ==> e.running == e.fd.Some?)
        && (e.fd.Some? ==> e.address == AddressOf(k))
        && (!EverStartedOver(l.log, k) ==> Squared(e))
        && Helpers(l.log, k) >= (if e.running then 1 else 0)
        && (Helpers(l.log, k) == (if e.running then 1 else 0) <==> !EverStartedOver(l.log, k))
  {
    EveryRun(inbox, actions);
    var l := Run(Started(inbox), actions).link;
    if l.life.Alive? || (l.life.Blocked? && !Reinitialised(Started(inbox), actions)) {
      assert SlotOk(k, l.table[k], l.enabled);
      OrphansExactly(l, k);
    }
  }

  /** The buffers of a slot are gone while one of its helpers is still there, with its read
      pending into them, exactly when it was started over and the bus then stopped. */
  lemma {:induction false} BuffersGoUnderHelperExactly(inbox: seq<Record>, actions: seq<Action>, k: nat)
    requires k < 14 && Run(Started(inbox), actions).link.life.Alive?
    ensures var l := Run(Started(inbox), actions).link;
      |l.table| == 14 &&
      (!l.table[k].buffers && Helpers(l.log, k) > 0 <==> !l.table[k].buffers && EverStartedOver(l.log, k))
  {
    LifecycleSafety(inbox, actions, k);
  }

  /** Every received descriptor is accounted for by one open slot, one close, or a later
      usbInit that forgot it. */
  lemma {:induction false} DescriptorsAreLinear(inbox: seq<Record>, actions: seq<Action>, x: Fd)
    ensures var l := Run(Started(inbox), actions).link;
      !l.life.Exited? ==> In(l.log, x) == Out(l.log, x) + Open(l.table, x)
  {
    EveryRun(inbox, actions);
    var l := Run(Started(inbox), actions).link;
    assert !l.life.Exited? ==> Drift(l, x) == 0;
  }

  lemma {:induction false} RequestIdsNeverRepeat(inbox: seq<Record>, actions: seq<Action>, i: nat, j: nat)
    requires var l := Run(Started(inbox), actions).link;
      !l.life.Exited? && i < j < |l.log| && Configures(l.log[i]) && Configures(l.log[j])
    ensures var l := Run(Started(inbox), actions).link;
      0 < l.log[i].requestId < l.log[j].requestId
  {
    EveryRun(inbox, actions);
    IdsStrictlyIncrease(Run(Started(inbox), actions).link.log, i, j);
  }

  /** `activation` is that of the last bus event, enabled means that the last one other than
      suspend and resume was ENABLE, and the worker is suspended exactly when the last one of
      enable, suspend and resume was SUSPEND. */
  lemma {:induction false} BusStateFollows(inbox: seq<Record>, actions: seq<Action>)
    ensures var d := Run(Started(inbox), actions); d.link.life.Exited? || Follows(d)
  {
    EveryRun(inbox, actions);
  }

  /** The worker sleeps exactly when a SUSPEND was received and no ENABLE, SUSPEND or RESUME
      after it; BIND, UNBIND and DISABLE neither wake it nor put it to sleep, and an ENABLE
      wakes it whether or not the bus was enabled. */
  lemma SleepsExactlyAfterSuspend(inbox: seq<Record>, actions: seq<Action>)
    ensures var d := Run(Started(inbox), actions);
      d.link.life.Exited? || (d.suspended <==> exists i: nat :: PutToSleepAt(d.link.log, i))
  {
    EveryRun(inbox, actions);
    SleepIsLatest(Run(Started(inbox), actions).link.log);
  }

  /** The event at `i` is a SUSPEND, and none after it is an ENABLE, a SUSPEND or a RESUME. */
  predicate PutToSleepAt(log: seq<Event>, i: nat) {
    && i < |log| && IsBus(log[i]) && log[i].record.body[0] == 5
    && forall j :: i < j < |log| && IsBus(log[j]) ==>
         log[j].record.body[0] != 2 && log[j].record.body[0] != 5 && log[j].record.body[0] != 6
  }

  lemma {:induction false} SleepIsLatest(log: seq<Event>)
    ensures LastSleep(log) == Some(5) <==> exists i: nat :: PutToSleepAt(log, i)
  {
    if log != [] {
      var front := log[..|log| - 1];
      SleepIsLatest(front);
      if IsSleep(log[|log| - 1]) {
        assert log[|log| - 1].record.body[0] == 5 ==> PutToSleepAt(log, |log| - 1);
      } else {
        forall i: nat ensures PutToSleepAt(log, i) <==> PutToSleepAt(front, i) {
          SleepInFront(log, i);
        }
      }
    }
  }

  lemma SleepInFront(log: seq<Event>, i: nat)
    requires log != [] && !IsSleep(log[|log| - 1])
    ensures PutToSleepAt(log, i) <==> PutToSleepAt(log[..|log| - 1], i)
  {
    var front := log[..|log| - 1];
    if PutToSleepAt(front, i) {
      assert log[i] == front[i] && forall j :: 0 <= j < |front| ==> log[j] == front[j];
    }
    if PutToSleepAt(log, i) {
      assert i < |front| && front[i] == log[i] && forall j :: 0 <= j < |front| ==> log[j] == front[j];
    }
  }

  /** No file or thread is touched. */
  predicate SameFiles(t: seq<Endpoint>, u: seq<Endpoint>) {
    |u| == |t| && forall k :: 0 <= k < |t| ==>
      u[k].fd == t[k].fd && u[k].eventOpen == t[k].eventOpen && u[k].running == t[k].running
  }

  /** A record that the worker survives before usbInit leaves the zeroed table alone
      exactly when it is a control request, a suspend or a resume. */
  lemma EarlyRecordExactly(r: Record, answer: Answer)
    requires RuntimeRecord(Boot(), r, answer).link.life.Alive?
    ensures SameFiles(Boot().link.table, RuntimeRecord(Boot(), r, answer).link.table) <==>
      r.kind == KIND_USB_CONTROL_REQUEST
      || (r.kind == KIND_USB_BUS_EVENT && |r.body| > 0 && (r.body[0] == 5 || r.body[0] == 6))
  {
    var heard := Heard(Boot().link, r);
    var t := heard.table;
    assert t[0] == ZERO_ENDPOINT && Threaded(Legacy, 0);
    SetUpKeepsSlots(heard, answer.setups);
    var u := SetUp(heard, answer.setups).table;
    if r.kind == KIND_USB_BUS_EVENT {
      assert Halt(heard).table[0] == StopSlot(Legacy, 0, t[0]);
      if r.body[0] == 2 && !SetUp(heard, answer.setups).life.Exited? {
        assert StartThreads(SetUp(heard, answer.setups)).table[0].running
            || !CanStart(Legacy, u);
      }
    } else if r.kind == KIND_QUIESCE {
      assert Quiesce(heard, r.requestId).table[0].fd.None?;
    } else {
      assert SameFiles(t, u);
    }
  }

  // ------------------------------------------------- what single steps come to

  /** usbReconnect is a replacement. QUIESCE and good ENDPOINTS for its request take the old
      generation down, acknowledge that, and put the new one in service; nothing else of the
      driver changes. */
  lemma ReconnectReplaces(d: Driver, inbox: seq<Record>)
    requires d.link.life.Alive? && d.link.nextRequestId != 0 && Replaces(d.link, inbox)
    ensures var e := Step(d, Happens(Reconnects(inbox)));
      var id, was := d.link.nextRequestId, d.link.generation;
      && e.link.life.Alive? && e.link.generation == inbox[1].generation && !e.link.enabled
      && e.link.log == d.link.log + [Sent(KIND_CONFIGURE, was, id)]
           + [Received(inbox[0])] + Takedown(d.link) + [Sent(KIND_QUIESCED, was, id)]
           + [Received(inbox[1])] + [Sent(KIND_SERVING, inbox[1].generation, id)]
      && e == d.(link := e.link)
  {
    ReplacementOutcome(d.link, inbox);
    ReplacementTrace(d.link, inbox);
    var id, asked := d.link.nextRequestId, SendConfiguration(d.link);
    QuiesceLog(Heard(asked, inbox[0]), id);
    QuiescedAwait(Quiesce(Heard(asked, inbox[0]), id), id, true, inbox[1..]);
  }

  /** A rejection of it that comes first leaves table, generation and `usb_enabled` alone. */
  lemma RejectedReconnect(d: Driver, inbox: seq<Record>)
    requires d.link.life.Alive? && d.link.nextRequestId != 0
    requires inbox != [] && IsRejection(d.link, d.link.nextRequestId, inbox[0])
    ensures var e := Step(d, Happens(Reconnects(inbox)));
      var id := d.link.nextRequestId;
      e == d.(link := d.link.(nextRequestId := (id + 1) % 0x1_0000_0000,
                              log := d.link.log + [Sent(KIND_CONFIGURE, d.link.generation, id), Received(inbox[0])]))
  {
    var asked := SendConfiguration(d.link);
    ReplacementAwait(asked, d.link.nextRequestId, inbox);
    assert Heard(asked, inbox[0]).log
        == d.link.log + [Sent(KIND_CONFIGURE, d.link.generation, d.link.nextRequestId), Received(inbox[0])];
  }

  /** It survives exactly a replacement and a rejection; ENDPOINTS that come without QUIESCE end
      the process, however good they are. */
  lemma ReconnectSurvivesExactly(d: Driver, inbox: seq<Record>)
    requires d.link.life.Alive? && d.link.nextRequestId != 0
    ensures var life := Step(d, Happens(Reconnects(inbox))).link.life;
      && (life.Alive? <==> Replaces(d.link, inbox) || RejectsReplacement(d.link, inbox))
      && (life.Blocked? <==> LeavesOpen(d.link, true, inbox))
      && (inbox != [] && inbox[0].kind == KIND_USB_ENDPOINTS ==> life.Exited?)
  {
    ReplacementOutcome(d.link, inbox);
  }

  /** usbInit needs no QUIESCE: good ENDPOINTS put the first generation in service, a rejection
      or any other record ends the process. */
  lemma InitSurvivesExactly(d: Driver, inbox: seq<Record>)
    requires d.link.life.Alive? && d.link.nextRequestId != 0
    ensures var e := Step(d, CallInit(inbox));
      && (e.link.life.Alive? <==> inbox != [] && GoodEndpoints(d.link, d.link.nextRequestId, inbox[0]))
      && (e.link.life.Blocked? <==> inbox == [])
      && (e.link.life.Alive? ==> e.initialized && e.link.generation == inbox[0].generation)
  {
    var r := Reset(d.link, d.initialized);
    FirstOutcome(r, inbox);
    if Configure(r, false, inbox).verdict.Serving? {
      FirstConfigurationTrace(r, inbox);
    }
  }

  /** QUIESCE outside a configuration takes every endpoint down and is acknowledged under its
      own id, whatever that is. */
  lemma QuiesceIsAcknowledged(d: Driver, r: Record, answer: Answer)
    requires d.link.life.Alive? && r.kind == KIND_QUIESCE
    ensures var e := RuntimeRecord(d, r, answer);
      && (e.link.life.Alive? <==> r.generation == d.link.generation && r.body == [] && r.fds == [])
      && (e.link.life.Alive? ==>
            && e.link.log == d.link.log + [Received(r)] + Takedown(d.link)
                 + [Sent(KIND_QUIESCED, d.link.generation, r.requestId)]
            && !e.link.enabled && forall k :: 0 <= k < |e.link.table| ==> e.link.table[k].fd.None?)
  {
    var heard := Heard(d.link, r);
    QuiesceLog(heard, r.requestId);
    assert Takedown(heard) == Takedown(d.link);
  }

  /** What a bus event that is survived makes of the bus: ENABLE enables it, with a helper on
      every open OUT endpoint, and has not been refused by firmware; BIND, UNBIND and DISABLE
      disable it and leave no helper; SUSPEND and RESUME are of the current activation and
      leave it as it was. */
  lemma BusEventExactly(d: Driver, r: Record, answer: Answer)
    requires Good(d.link) && d.link.life.Alive? && r.kind == KIND_USB_BUS_EVENT
    requires RuntimeRecord(d, r, answer).link.life.Alive?
    ensures var e := RuntimeRecord(d, r, answer);
      && IsBusEvent(d.link, r) && r.body[0] in [0, 1, 2, 3, 5, 6] && e.activation == Be64(r.body[1..])
      && (r.body[0] in [0, 1, 3] ==> !e.link.enabled && !SomeHelper(e.link))
      && (r.body[0] == 2 ==> e.link.enabled && AllHelpers(e.link) && (d.link.enabled || !answer.stalled))
      && (r.body[0] in [5, 6] ==>
            e.activation == d.activation && e.link.table == d.link.table && e.link.enabled == d.link.enabled)
  {
    var heard := d.(link := Heard(d.link, r));
    RecordGoes(d, r, answer);
    assert RuntimeRecord(d, r, answer) == BusEvent(heard, r, answer);
    var m := RuntimeRecord(d, r, answer).link;
    assert m == BusLink(heard.link, r.body[0], answer);
    if r.body[0] == 2 {
      EnabledHasHelpers(m);
    } else if r.body[0] in [0, 1, 3] {
      HaltedHasNone(d.link, heard.link);
    }
  }

  /** The set-up at i is the last one of slot k. */
  predicate LastOf(setups: seq<EpSetup>, k: nat, i: nat) {
    && i < |setups| && Names(setups[i], k)
    && forall j :: i < j < |setups| ==> !Names(setups[j], k)
  }

  predicate Names(s: EpSetup, k: nat) {
    s.address % 128 >= 1 && SlotOf(s.address) == k
  }

  /** Slot k as this call leaves it. */
  function Renamed(e: Endpoint, s: EpSetup, k: nat): Endpoint {
    if Names(s, k) then e.(address := s.address, transferType := s.transferType, maxPacket := s.maxPacket) else e
  }

  lemma SetUpOneSlot(l: Link, s: EpSetup, k: nat)
    requires |l.table| == 14 && k < 14 && !SetUpOne(l, s).life.Exited?
    ensures |SetUpOne(l, s).table| == 14 && SetUpOne(l, s).table[k] == Renamed(l.table[k], s, k)
  {}

  lemma LastOfOneMore(front: seq<EpSetup>, s: EpSetup, k: nat, i: nat)
    ensures LastOf(front + [s], k, i) <==> if Names(s, k) then i == |front| else LastOf(front, k, i)
  {
    assert (front + [s])[|front|] == s && forall j :: 0 <= j < |front| ==> (front + [s])[j] == front[j];
  }

  /** Firmware's set-up of an endpoint: the last call for a slot decides address, type and packet
      size, and a slot that no call names keeps them. */
  lemma {:induction false} LastSetUpWins(l: Link, setups: seq<EpSetup>, k: nat)
    requires |l.table| == 14 && k < 14 && !SetUp(l, setups).life.Exited?
    ensures var t := SetUp(l, setups).table;
      && |t| == 14
      && (forall i: nat :: LastOf(setups, k, i) ==> t[k] == Renamed(l.table[k], setups[i], k))
      && ((forall i: nat :: !LastOf(setups, k, i)) ==> t[k] == l.table[k])
  {
    if setups != [] {
      var n := |setups| - 1;
      var front, s := setups[..n], setups[n];
      assert setups == front + [s];
      LastSetUpWins(l, front, k);
      SetUpOneSlot(SetUp(l, front), s, k);
      forall i: nat ensures LastOf(setups, k, i) <==> if Names(s, k) then i == n else LastOf(front, k, i) {
        LastOfOneMore(front, s, k, i);
      }
      if Names(s, k) {
        assert LastOf(setups, k, n);
        RenamedByLast(l.table[k], front, s, k);
      }
    }
  }

  /** What earlier calls wrote does not matter. */
  lemma RenamedByLast(e: Endpoint, front: seq<EpSetup>, s: EpSetup, k: nat)
    requires Names(s, k)
    ensures forall i: nat :: i < |front| ==> Renamed(Renamed(e, front[i], k), s, k) == Renamed(e, s, k)
  {}

  /** An ENABLE of a disabled bus survives exactly if firmware names only endpoints that exist,
      accepts the configuration, and leaves no open OUT endpoint with packets of size 0. */
  lemma EnableSurvivesExactly(d: Driver, r: Record, answer: Answer)
    requires Good(d.link) && d.link.life.Alive? && !d.link.enabled
    requires r.kind == KIND_USB_BUS_EVENT && IsBusEvent(d.link, r) && r.body[0] == 2
    ensures RuntimeRecord(d, r, answer).link.life.Alive? <==>
      && !answer.stalled && (forall i :: 0 <= i < |answer.setups| ==> answer.setups[i].address % 128 <= 7)
      && var t := SetUp(d.link, answer.setups).table;
         forall k :: 0 <= k < |t| && t[k].fd.Some? && k % 2 == 0 ==> t[k].maxPacket > 0
  {
    var heard := Heard(d.link, r);
    assert RuntimeRecord(d, r, answer).link == BusLink(heard, 2, answer);
    SetUpExitsExactly(heard, answer.setups);
    SetUpExitsExactly(d.link, answer.setups);
    SetUpKeepsSlots(heard, answer.setups);
    SetUpIgnoresLog(d.link, heard, answer.setups);
  }

  lemma {:induction false} SetUpIgnoresLog(l: Link, m: Link, setups: seq<EpSetup>)
    requires m.table == l.table && m.life == l.life
    ensures SetUp(m, setups).table == SetUp(l, setups).table && SetUp(m, setups).life == SetUp(l, setups).life
  {
    if setups != [] {
      SetUpIgnoresLog(l, m, setups[..|setups| - 1]);
    }
  }

  /** Every open OUT endpoint has its helper. */
  predicate AllHelpers(l: Link) {
    forall k :: 0 <= k < |l.table| && l.table[k].fd.Some? && Threaded(Legacy, k) ==> l.table[k].running
  }

  lemma EnabledHasHelpers(l: Link)
    requires Consistent(l) && l.enabled
    ensures AllHelpers(l)
  {
    forall k | 0 <= k < |l.table| && l.table[k].fd.Some? && Threaded(Legacy, k) ensures l.table[k].running {
      assert SlotOk(k, l.table[k], l.enabled);
    }
  }

  lemma HaltedHasNone(l: Link, m: Link)
    requires Consistent(l) && m.table == l.table && m.worker == l.worker
    ensures !SomeHelper(Halt(m))
  {
    forall k | 0 <= k < |m.table| ensures !Halt(m).table[k].running {
      assert SlotOk(k, l.table[k], l.enabled);
    }
  }

  /** A control request that is well-formed gets exactly one response, under its own id and
      the current generation; any other ends the process. */
  lemma ControlRequestIsAnsweredOnce(d: Driver, r: Record, answer: Answer)
    requires d.link.life.Alive? && |d.link.table| == 14 && r.kind == KIND_USB_CONTROL_REQUEST
    ensures var e := RuntimeRecord(d, r, answer);
      && (e.link.life.Exited? <==>
            || !Control.WellFormed(r, d.link.generation)
            || exists i :: 0 <= i < |answer.setups| && answer.setups[i].address % 128 > 7)
      && (!e.link.life.Exited? ==>
            e.link.log == d.link.log + [Received(r)]
              + [Sent(KIND_USB_CONTROL_RESPONSE, d.link.generation, r.requestId)])
  {
    SetUpKeepsSlots(Heard(d.link, r), answer.setups);
    SetUpExitsExactly(Heard(d.link, r), answer.setups);
  }

  lemma {:induction false} SetUpExitsExactly(l: Link, setups: seq<EpSetup>)
    requires l.life.Alive? && |l.table| == 14
    ensures SetUp(l, setups).life.Exited? <==> exists i :: 0 <= i < |setups| && setups[i].address % 128 > 7
  {
    if setups != [] {
      var n := |setups| - 1;
      SetUpExitsExactly(l, setups[..n]);
      SetUpKeepsSlots(l, setups[..n]);
      AddressesAndSlots(7);
      assert forall i :: 0 <= i < n ==> setups[..n][i] == setups[i];
      if setups[n].address % 128 >= 1 {
        assert SlotOf(setups[n].address) >= 14 <==> setups[n].address % 128 > 7;
      }
    }
  }

  /** A runtime record that is survived is of the current generation and one of three kinds,
      QUIESCE, bus event and control request, each in its form: no record of a retired generation is ever acted upon. */
  lemma OnlyCurrentRecordsSurvive(d: Driver, r: Record, answer: Answer)
    requires d.link.life.Alive? && RuntimeRecord(d, r, answer).link.life.Alive?
    ensures r.generation == d.link.generation && r.fds == []
    ensures || (r.kind == 0x11 && r.body == [])
            || (r.kind == 0x03 && r.requestId == 0 && |r.body| == 9)
            || (r.kind == 0x04 && r.requestId != 0 && |r.body| >= 8)
  {}

  /** What it comes to when a helper stores a packet: on a full slot, or for a packet with bytes
      in freed memory, the process ends; otherwise the slot is full and the helper about to
      notify. A helper that has nothing to store, or no such helper, changes nothing. */
  lemma StoreExactly(d: Driver, k: nat, orphan: bool, empty: bool)
    requires d.link.life.Alive? && k < |d.link.table|
    ensures var was := d.link.table[k];
      var f := Step(d, Happens(Stores(k, orphan, empty)));
      var may := if orphan then was.threads.late < was.threads.orphans else was.running && !was.threads.pending;
      && (!may ==> f == d)
      && (may ==> (f.link.life.Exited? <==> was.occupied || (!was.buffers && !empty)))
      && (may && f.link.life.Alive? ==>
            && |f.link.table| == |d.link.table| && f.link.table[k].occupied && f.link.table[k].count == was.count
            && (if orphan then f.link.table[k].threads.late == was.threads.late + 1
                else f.link.table[k].threads.pending))
  {}

  /** And when it notifies: a closed eventfd ends the process, an open one counts one more. */
  lemma NotifyExactly(d: Driver, k: nat, orphan: bool)
    requires d.link.life.Alive? && k < |d.link.table|
    ensures var was := d.link.table[k];
      var f := Step(d, Happens(Notifies(k, orphan)));
      var may := if orphan then was.threads.late > 0 else was.threads.pending;
      && (!may ==> f == d)
      && (may ==> (f.link.life.Exited? <==> !was.eventOpen))
      && (may && f.link.life.Alive? ==>
            && |f.link.table| == |d.link.table| && f.link.table[k].count == was.count + 1
            && f.link.table[k].occupied == was.occupied)
  {}
}
