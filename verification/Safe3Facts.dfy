/** Theorems about every run of the Safe 3 driver. */
module Safe3Facts {
  import opened Common
  import opened Wire
  import opened EndpointMap
  import opened Generation
  import opened Ledger
  import opened GenerationFacts
  import opened Safe3Usb

  function Run(d: Driver, actions: seq<Action>): Driver {
    if actions == [] then d else Step(Run(d, actions[..|actions| - 1]), actions[|actions| - 1])
  }

  lemma RunStep(d: Driver, actions: seq<Action>, a: Action)
    ensures Run(d, actions + [a]) == Step(Run(d, actions), a)
  {
    assert (actions + [a])[..|actions|] == actions;
  }

  // ------------------------------------------------------ whatever is called

  lemma {:induction false} EveryRunIsOrdered(pressed: bool, actions: seq<Action>)
    ensures var d := Run(Boot(pressed), actions);
      d.link.life.Exited? || Ordered(d)
  {
    if actions == [] {
      BootIsOrdered(pressed);
    } else {
      var front := actions[..|actions| - 1];
      EveryRunIsOrdered(pressed, front);
      if Run(Boot(pressed), front).link.life.Alive? {
        StepKeepsOrder(Run(Boot(pressed), front), actions[|actions| - 1]);
      }
    }
  }

  /** No endpoint file is closed while any helper of its slot has not been joined. */
  lemma {:induction false} FilesCloseAfterJoin(pressed: bool, actions: seq<Action>, i: nat)
    ensures var l := Run(Boot(pressed), actions).link;
      !l.life.Exited? && i < |l.log| && l.log[i].Closed? ==> Helpers(l.log[..i], l.log[i].slot) == 0
  {
    EveryRunIsOrdered(pressed, actions);
    var l := Run(Boot(pressed), actions).link;
    if !l.life.Exited? && i < |l.log| && l.log[i].Closed? {
      OnceClosesAfterJoin(l.log, i);
    }
  }

  /** No helper is started on a slot that still has one, and the flag of a slot says
      whether it has one. */
  lemma {:induction false} HelpersNeverDouble(pressed: bool, actions: seq<Action>, k: nat)
    ensures var l := Run(Boot(pressed), actions).link;
      !l.life.Exited? && k < 16 ==>
        && |l.table| == 16 && Helpers(l.log, k) == (if l.table[k].running then 1 else 0)
        && forall j :: 0 <= j < |l.log| ==> !StartedOver(l.log, j, k)
  {
    EveryRunIsOrdered(pressed, actions);
    var l := Run(Boot(pressed), actions).link;
    if !l.life.Exited? {
      OnceFlagCounts(l.log, k);
      forall j | 0 <= j < |l.log| ensures !StartedOver(l.log, j, k) {
        OnceMeansNever(l.log, j, k);
      }
    }
  }

  /** Configuration request ids are nonzero and strictly increasing over the whole run. */
  lemma {:induction false} RequestIdsNeverRepeat(pressed: bool, actions: seq<Action>, i: nat, j: nat)
    requires var l := Run(Boot(pressed), actions).link;
      !l.life.Exited? && i < j < |l.log| && Configures(l.log[i]) && Configures(l.log[j])
    ensures var l := Run(Boot(pressed), actions).link;
      0 < l.log[i].requestId < l.log[j].requestId
  {
    EveryRunIsOrdered(pressed, actions);
    IdsStrictlyIncrease(Run(Boot(pressed), actions).link.log, i, j);
  }

  /** So nothing is configured after id 2^32 - 1. */
  lemma {:induction false} NothingAfterLastId(pressed: bool, actions: seq<Action>, i: nat, j: nat)
    requires var l := Run(Boot(pressed), actions).link;
      !l.life.Exited? && i < j < |l.log| && Configures(l.log[i]) && l.log[i].requestId == 0xFFFF_FFFF
    ensures !Configures(Run(Boot(pressed), actions).link.log[j])
  {
    if Configures(Run(Boot(pressed), actions).link.log[j]) {
      RequestIdsNeverRepeat(pressed, actions, i, j);
    }
  }

  /** Ejections and insertions strictly alternate, starting with an ejection, and
      `ejected` tells which came last. */
  lemma {:induction false} PortChangesAlternate(pressed: bool, actions: seq<Action>, i: nat)
    ensures var d := Run(Boot(pressed), actions);
      !d.link.life.Exited? ==>
        && (i < |d.ports| ==> (d.ports[i] == Eject <==> i % 2 == 0))
        && (d.ejected <==> d.ports != [] && d.ports[|d.ports| - 1] == Eject)
  {
    EveryRunIsOrdered(pressed, actions);
    var d := Run(Boot(pressed), actions);
    if !d.link.life.Exited? {
      AlternatingPorts(d.ports, d.ejected, i);
    }
  }

  lemma {:induction false} AlternatingPorts(ports: seq<PortChange>, ejected: bool, i: nat)
    requires PortsOk(ports, ejected)
    ensures i < |ports| ==> (ports[i] == Eject <==> i % 2 == 0)
    ensures ejected <==> |ports| % 2 == 1
  {
    if ports != [] {
      AlternatingPorts(ports[..|ports| - 1], !ejected, i);
    }
  }

  /** `activation` and `suspended` are those of the last bus event; enabled means that
      the last event but for suspends and resumes was ENABLE. */
  predicate Follows(d: Driver) {
    var bus := LastBus(d.link.log);
    && d.activation == (match bus case None => 0 case Some(body) => Be64(body[1..]))
    && (d.suspended <==> bus.Some? && bus.value[0] == 5)
    && (d.link.enabled ==> LastPower(d.link.log) == Some(2))
  }

  lemma QuietStepFollows(d: Driver, e: Driver)
    requires Follows(d) && QuietStep(d, e)
    ensures e.link.life.Exited? || Follows(e)
  {}

  lemma InitFollows(d: Driver, builderOk: bool, registerOk: bool)
    requires Follows(d)
    ensures var e := Init(d, builderOk, registerOk);
      e.link.life.Exited? || Follows(e)
  {
    ResetKeeps(d.link, d.synchronized);
    AskIsQuiet(Reset(d.link, d.synchronized));
  }

  lemma BusEventFollows(d: Driver, r: Record)
    requires Follows(d) && r.kind == KIND_USB_BUS_EVENT && IsBusEvent(d.link, r)
    ensures var e := BusEvent(d.(link := Heard(d.link, r)), r);
      e.link.life.Exited? || Follows(e)
  {
    var heard := d.(link := Heard(d.link, r));
    HistoryStep(d.link.log, Received(r));
    BusEventLink(heard, r);
    BusEventFields(heard, r);
    HaltIsQuiet(heard.link);
    if CanStart(heard.link.worker, heard.link.table) {
      StartKeeps(heard.link);
    }
  }

  lemma RecordFollows(d: Driver, r: Record)
    requires Follows(d) && !d.link.life.Exited?
    ensures var e := RuntimeRecord(d, r);
      e.link.life.Exited? || Follows(e)
  {
    if r.kind != KIND_USB_BUS_EVENT {
      OtherRecordIsQuiet(d, r);
      QuietStepFollows(d, RuntimeRecord(d, r));
    } else if IsBusEvent(d.link, r) {
      BusEventFollows(d, r);
    }
  }

  lemma PassFollows(d: Driver, record: Option<Record>, key: KeyPoll, polled: set<nat>, inbox: seq<Record>)
    requires Ordered(d) && Follows(d) && d.link.life.Alive?
    ensures var e := Pass(d, record, key, polled, inbox);
      e.link.life.Exited? || Follows(e)
  {
    var e := if record.Some? then RuntimeRecord(d, record.value) else d;
    if record.Some? {
      RecordFollows(d, record.value);
      RecordKeepsOrder(d, record.value);
    }
    if e.link.life.Alive? {
      AfterRecordIsQuiet(e, key, polled, inbox);
      QuietStepFollows(e, AfterRecord(e, key, polled, inbox));
    }
  }

  lemma AccessFollows(d: Driver, a: Action)
    requires Follows(d) && d.link.life.Alive? && (a.CallRead? || a.CallWrite? || a.Helper?)
    ensures Follows(Step(d, a))
  {
    AccessShape(d, a);
  }

  lemma StopFollows(d: Driver)
    requires Follows(d)
    ensures var e := Stop(d); e.link.life.Exited? || (Follows(e) && Follows(Deinit(d)))
  {
    StopIsQuiet(d);
    QuietStepFollows(d, Stop(d));
  }

  lemma StepFollows(d: Driver, a: Action)
    requires Ordered(d) && Follows(d) && d.link.life.Alive?
    ensures Step(d, a).link.life.Exited? || Follows(Step(d, a))
  {
    match a
    case CallInit(builderOk, registerOk) => InitFollows(d, builderOk, registerOk);
    case CallDeinit => StopFollows(d);
    case CallStop => StopFollows(d);
    case CallStart(same, builderOk, registerOk, inbox) =>
      StartIsQuiet(d, same, builderOk, registerOk, inbox);
      QuietStepFollows(d, Start(d, same, builderOk, registerOk, inbox));
    case CallPass(record, key, polled, inbox) => PassFollows(d, record, key, polled, inbox);
    case _ => AccessFollows(d, a);
  }

  /** Over every run the bus state is that of the bus events received. */
  lemma {:induction false} BusStateFollows(pressed: bool, actions: seq<Action>)
    ensures var d := Run(Boot(pressed), actions);
      d.link.life.Exited? || Follows(d)
  {
    if actions != [] {
      var front := actions[..|actions| - 1];
      BusStateFollows(pressed, front);
      EveryRunIsOrdered(pressed, front);
      var d := Run(Boot(pressed), front);
      if d.link.life.Alive? {
        StepFollows(d, actions[|actions| - 1]);
      }
    }
  }

  // ----------------------------------------------- from the first usb_init on

  /** usb_init has been through the table at some point of this run. */
  predicate Initialised(actions: seq<Action>) {
    exists i :: 0 <= i < |actions| && actions[i].CallInit? && actions[i].builderOk
  }

  /** A record that no endpoint notices: a control request, a suspend or a resume. */
  predicate Harmless(r: Record) {
    r.kind == KIND_USB_CONTROL_REQUEST
    || (r.kind == KIND_USB_BUS_EVENT && |r.body| > 0 && (r.body[0] == 5 || r.body[0] == 6))
  }

  /** No other record is handled before that (`EarlyRecordExactly` says what it would do).
      The supervisor has nothing to say to a worker that has not sent its first
      CONFIGURE. */
  predicate RecordsAfterInit(actions: seq<Action>) {
    forall i :: 0 <= i < |actions| && actions[i].CallPass? && actions[i].record.Some? ==>
      Harmless(actions[i].record.value) || Initialised(actions[..i])
  }

  ghost predicate NoFds(log: seq<Event>) {
    forall x: Fd :: In(log, x) == 0 == Out(log, x)
  }

  /** Before it, the endpoints are as they booted. */
  ghost predicate Untouched(d: Driver) {
    && !d.synchronized && !d.initialized && !d.started && !d.link.enabled
    && (d.link.life.Exited? ||
        (d.link.worker.Safe3? && d.link.table == Zeroed(Safe3).table && NoFds(d.link.log)))
  }

  lemma EventMovesNoFds(log: seq<Event>, e: Event)
    requires NoFds(log) && (e.Sent? || (e.Received? && e.record.fds == []))
    ensures NoFds(log + [e])
  {
    forall x: Fd ensures In(log + [e], x) == 0 == Out(log + [e], x) {
      assert In(log, x) == 0 == Out(log, x);
      FdsStep(log, e, x);
    }
  }

  /** From d to e no endpoint noticed anything. */
  ghost predicate Unnoticed(d: Driver, e: Driver) {
    && SameCalls(d, e) && e.link.table == d.link.table && e.link.enabled == d.link.enabled
    && e.link.worker == d.link.worker && e.link.life == d.link.life && (NoFds(d.link.log) ==> NoFds(e.link.log))
  }

  lemma HarmlessKeepsFds(d: Driver, r: Record)
    requires Harmless(r)
    ensures RuntimeRecord(d, r).link.life.Exited? || Unnoticed(d, RuntimeRecord(d, r))
  {
    var heard := d.(link := Heard(d.link, r));
    if r.kind == KIND_USB_CONTROL_REQUEST {
      ControlRecordLink(d, r);
      if Control.WellFormed(r, d.link.generation) && NoFds(d.link.log) {
        EventMovesNoFds(d.link.log, Received(r));
        EventMovesNoFds(heard.link.log, Sent(KIND_USB_CONTROL_RESPONSE, heard.link.generation, r.requestId));
      }
    } else if IsBusEvent(d.link, r) {
      SuspendIsUnnoticed(d, r);
    }
  }

  lemma SuspendIsUnnoticed(d: Driver, r: Record)
    requires IsBusEvent(d.link, r) && (r.body[0] == 5 || r.body[0] == 6)
    ensures var e := BusEvent(d.(link := Heard(d.link, r)), r);
      e.link.life.Exited? || Unnoticed(d, e)
  {
    var heard := d.(link := Heard(d.link, r));
    BusEventLink(heard, r);
    BusEventFields(heard, r);
    if NoFds(d.link.log) {
      EventMovesNoFds(d.link.log, Received(r));
    }
  }

  lemma UntouchedPass(d: Driver, key: KeyPoll, polled: set<nat>, inbox: seq<Record>)
    requires Untouched(d) && d.link.life.Alive? && polled == {}
    ensures Untouched(AfterRecord(d, key, polled, inbox))
  {
    SenseLink(d, key);
  }

  lemma UntouchedStep(d: Driver, a: Action)
    requires Untouched(d) && d.link.life.Alive? && !(a.CallInit? && a.builderOk)
    requires a.CallPass? && a.record.Some? ==> Harmless(a.record.value)
    ensures Step(d, a).link.life.Exited? || Untouched(Step(d, a))
  {
    match a
    case CallPass(record, key, polled, inbox) =>
      assert Pollable(d.link, polled) ==> forall k :: k !in polled;
      if Pollable(d.link, polled) {
        var e := if record.Some? then RuntimeRecord(d, record.value) else d;
        if record.Some? {
          HarmlessKeepsFds(d, record.value);
        }
        if e.link.life.Alive? {
          UntouchedPass(e, key, polled, inbox);
        }
      }
    case CallStart(same, builderOk, registerOk, inbox) =>
    case _ =>
  }

  lemma FirstInitConserves(d: Driver, registerOk: bool)
    requires Untouched(d) && d.link.life.Alive?
    ensures var e := Init(d, true, registerOk);
      e.synchronized && (e.link.life.Exited? || (Conserved(e.link) && Consistent(e.link)))
  {
    var r := Reset(d.link, false);
    AskIsQuiet(r);
    assert r.log == d.link.log;
    forall x: Fd ensures Drift(r, x) == 0 {
      NothingOpen(r.table, x);
      assert In(d.link.log, x) == 0 == Out(d.link.log, x);
    }
    ConservedStays(r, SendConfiguration(r));
  }

  lemma InitialisedFront(actions: seq<Action>)
    requires actions != []
    ensures var a := actions[|actions| - 1];
      Initialised(actions) <==> Initialised(actions[..|actions| - 1]) || (a.CallInit? && a.builderOk)
  {
    var n := |actions| - 1;
    assert forall i :: 0 <= i < n ==> actions[..n][i] == actions[i];
  }

  lemma RecordsAfterInitFront(actions: seq<Action>)
    requires actions != [] && RecordsAfterInit(actions)
    ensures var front, a := actions[..|actions| - 1], actions[|actions| - 1];
      RecordsAfterInit(front) && (a.CallPass? && a.record.Some? ==> Harmless(a.record.value) || Initialised(front))
  {
    var front := actions[..|actions| - 1];
    assert forall i :: 0 <= i < |front| ==> actions[..i] == front[..i] && actions[i] == front[i];
  }

  /** What a run knows: nothing yet, or a balanced ledger. */
  ghost predicate Balanced(d: Driver, actions: seq<Action>) {
    d.link.life.Exited? ||
    (if d.synchronized then Conserved(d.link) else Untouched(d) && (d.link.life.Alive? ==> !Initialised(actions)))
  }

  lemma {:induction false} EveryRunConserves(pressed: bool, actions: seq<Action>)
    requires RecordsAfterInit(actions)
    ensures Balanced(Run(Boot(pressed), actions), actions)
  {
    if actions != [] {
      var front, a := actions[..|actions| - 1], actions[|actions| - 1];
      RecordsAfterInitFront(actions);
      InitialisedFront(actions);
      EveryRunConserves(pressed, front);
      EveryRunIsOrdered(pressed, front);
      var d := Run(Boot(pressed), front);
      if d.link.life.Alive? {
        StepBalances(d, a, front);
      }
    }
  }

  lemma StepBalances(d: Driver, a: Action, front: seq<Action>)
    requires Ordered(d) && d.link.life.Alive? && Balanced(d, front)
    requires a.CallPass? && a.record.Some? ==> Harmless(a.record.value) || Initialised(front)
    ensures var e := Step(d, a);
      e.link.life.Exited? ||
      (if e.synchronized then Conserved(e.link) else Untouched(e) && !(a.CallInit? && a.builderOk) && !d.synchronized)
  {
    if d.synchronized {
      StepKeepsOrder(d, a);
      StepStaysSynchronized(d, a);
      ConservedStays(d.link, Step(d, a).link);
    } else if a.CallInit? && a.builderOk {
      FirstInitConserves(d, a.registerOk);
    } else {
      UntouchedStep(d, a);
    }
  }

  /** Conservation: a descriptor is in the table, closed, or forgotten by a later
      re-initialisation exactly as often as it was received; in particular one that
      arrived once sits in at most one slot and is closed at most once. */
  lemma {:induction false} DescriptorsAreLinear(pressed: bool, actions: seq<Action>, x: Fd)
    requires RecordsAfterInit(actions)
    ensures var d := Run(Boot(pressed), actions);
      d.synchronized && !d.link.life.Exited? ==>
        && In(d.link.log, x) == Out(d.link.log, x) + Open(d.link.table, x)
        && (In(d.link.log, x) <= 1 ==> Out(d.link.log, x) + Open(d.link.table, x) <= 1)
  {
    EveryRunConserves(pressed, actions);
    var d := Run(Boot(pressed), actions);
    assert d.synchronized && !d.link.life.Exited? ==> Drift(d.link, x) == 0;
  }

  /** Along this run nobody calls usb_init while helper threads are running. */
  predicate NoOrphans(d: Driver, actions: seq<Action>) {
    actions == [] ||
    (var front, a := actions[..|actions| - 1], actions[|actions| - 1];
     NoOrphans(d, front) && !OrphansHelpers(Run(d, front), a))
  }

  lemma {:induction false} EveryRunKeepsInv(pressed: bool, actions: seq<Action>)
    requires RecordsAfterInit(actions) && NoOrphans(Boot(pressed), actions)
    ensures var d := Run(Boot(pressed), actions);
      d.synchronized && !d.link.life.Exited? ==> Inv(d)
  {
    EveryRunIsOrdered(pressed, actions);
    EveryRunConserves(pressed, actions);
    if actions != [] {
      var front, a := actions[..|actions| - 1], actions[|actions| - 1];
      RecordsAfterInitFront(actions);
      EveryRunKeepsInv(pressed, front);
      EveryRunConserves(pressed, front);
      StepGivesInv(Run(Boot(pressed), front), a, front);
    }
  }

  lemma StepGivesInv(d: Driver, a: Action, front: seq<Action>)
    requires Balanced(d, front) && (d.synchronized && !d.link.life.Exited? ==> Inv(d)) && !OrphansHelpers(d, a)
    requires a.CallPass? && a.record.Some? ==> Harmless(a.record.value) || Initialised(front)
    ensures var e := Step(d, a);
      e.synchronized && !e.link.life.Exited? ==> Consistent(e.link)
  {
    if d.link.life.Alive? {
      if d.synchronized {
        StepKeepsInv(d, a);
      } else if a.CallInit? && a.builderOk {
        FirstInitConserves(d, a.registerOk);
      } else {
        UntouchedStep(d, a);
      }
    }
  }

  /** In every reachable state of a live process that has been through usb_init: with the
      bus enabled, an endpoint's file, thread, eventfd and buffers are there together;
      without it there is no thread, no eventfd, no buffer and no packet; a packet fits a
      live buffer. */
  lemma {:induction false} LifecycleSafety(pressed: bool, actions: seq<Action>, k: nat)
    requires RecordsAfterInit(actions) && NoOrphans(Boot(pressed), actions) && k < 16
    ensures var d := Run(Boot(pressed), actions);
      d.synchronized && !d.link.life.Exited? ==>
        |d.link.table| == 16 &&
        var e := d.link.table[k];
        && (d.link.enabled ==> e.fd.Some? == e.running == e.eventOpen == e.buffers)
        && (!d.link.enabled ==> !e.running && !e.eventOpen && !e.buffers && !e.occupied)
        && (e.occupied ==> e.buffers && e.length <= e.maxPacket)
        && (e.fd.Some? ==> e.address == AddressOf(k))
  {
    EveryRunKeepsInv(pressed, actions);
    var d := Run(Boot(pressed), actions);
    assert d.synchronized && !d.link.life.Exited? ==> SlotOk(k, d.link.table[k], d.link.enabled);
  }

  /** A record that a worker survives before its first usb_init leaves the zeroed table
      alone exactly when it is a control request, a suspend or a resume. Any other stops,
      starts or closes endpoints on descriptor 0, which it was never sent. */
  lemma EarlyRecordExactly(pressed: bool, r: Record)
    requires RuntimeRecord(Boot(pressed), r).link.life.Alive?
    ensures RuntimeRecord(Boot(pressed), r).link.table == Boot(pressed).link.table <==> Harmless(r)
  {
    var d := Boot(pressed);
    var heard := d.(link := Heard(d.link, r));
    var e := RuntimeRecord(d, r);
    var t := d.link.table;
    assert t[0] == ZERO_ENDPOINT && Threaded(Safe3, 0);
    if r.kind == KIND_USB_BUS_EVENT {
      BusEventLink(heard, r);
      assert Halt(heard.link).table[0] == StopSlot(Safe3, 0, t[0]);
      assert StartThreads(heard.link).table[0] == StartSlot(Safe3, 0, t[0]);
    } else {
      OtherRecordLink(d, r);
      assert Quiesce(heard.link, r.requestId).table[0].fd.None?;
      if r.kind == KIND_USB_CONTROL_REQUEST {
        assert e.link == Send(heard.link, KIND_USB_CONTROL_RESPONSE, r.requestId);
      }
    }
  }

  // ---------------------------------------------------------------- convergence

  /** KEY3 convergence: after a completed pass with USB started, `ejected` equals the
      last sampled level unless the supervisor has just rejected the ejection. However
      many edges were queued, the level sampled after them is the one that counts. */
  lemma {:induction false} PassConverges(d: Driver, record: Option<Record>, key: KeyPoll, polled: set<nat>,
                                         inbox: seq<Record>)
    requires d.link.life.Alive?
    requires var e := Pass(d, record, key, polled, inbox); e.link.life.Alive? && e.started
    ensures var e := Pass(d, record, key, polled, inbox);
      && (e.ejected == e.pressed || JustRejected(e, inbox))
      && (key.readable ==> e.pressed == key.level) && !key.unexpected
  {
    var e := if record.Some? then RuntimeRecord(d, record.value) else d;
    SenseSamples(e, key);
    SenseLink(e, key);
    var f := Sense(e, key);
    UnconfigureConverges(f, inbox);
    ReinsertConverges(f, inbox);
  }

  /** KEY3 is pressed, nothing is ejected, and the last thing heard was the supervisor's
      rejection. */
  predicate JustRejected(d: Driver, inbox: seq<Record>) {
    && d.pressed && !d.ejected && inbox != [] && inbox[0].kind == KIND_CONFIGURATION_REJECTED
    && d.link.log != [] && d.link.log[|d.link.log| - 1] == Received(inbox[0])
  }

  lemma SenseSamples(d: Driver, key: KeyPoll)
    requires d.link.life.Alive? && Sense(d, key).link.life.Alive?
    ensures !key.unexpected && (key.readable ==> Sense(d, key).pressed == key.level)
  {
    RefreshLink(d, key);
  }

  lemma UnconfigureConverges(d: Driver, inbox: seq<Record>)
    requires d.link.life.Alive?
    ensures var e := Unconfigure(d, inbox);
      e.link.life.Alive? ==>
        e.pressed == d.pressed && (e.ejected || !d.pressed || JustRejected(e, inbox))
  {
    UnconfigureLink(d, inbox);
  }

  lemma ReinsertConverges(d: Driver, inbox: seq<Record>)
    requires d.link.life.Alive?
    ensures var e := Reinsert(d, inbox); e.link.life.Alive? ==> !e.ejected && e.pressed == d.pressed
  {
    ServingOrRejected(d.link, inbox);
  }

  lemma ServingOrRejected(l: Link, inbox: seq<Record>)
    requires l.life.Alive?
    ensures var c := Configure(l, false, inbox); c.verdict.Nothing? ==> !c.link.life.Alive?
  {}

  // --------------------------------------------------- where the scope is needed

  lemma RunOne(d: Driver, a: Action)
    ensures Run(d, [a]) == Step(d, a)
  {
    assert [a][..0] == [];
  }

  lemma RunFive(d: Driver, a1: Action, a2: Action, a3: Action, a4: Action, a5: Action)
    ensures Run(d, [a1] + [a2] + [a3] + [a4] + [a5]) == Step(Step(Step(Step(Step(d, a1), a2), a3), a4), a5)
  {
    RunOne(d, a1);
    RunStep(d, [a1], a2);
    RunStep(d, [a1] + [a2], a3);
    RunStep(d, [a1] + [a2] + [a3], a4);
    RunStep(d, [a1] + [a2] + [a3] + [a4], a5);
  }

  /** A helper runs on an endpoint whose file the driver has forgotten. */
  predicate Orphaned(d: Driver) {
    d.link.life.Alive? && |d.link.table| > 0 && d.link.table[0].running && d.link.table[0].fd.None?
  }

  lemma OrphanWitness(d: Driver, actions: seq<Action>)
    requires d == Run(Boot(false), actions) && Orphaned(d)
    ensures exists actions :: Orphaned(Run(Boot(false), actions))
  {}

  /** usb_start that fails after SERVING, an ENABLE, then usb_deinit and usb_init: a
      helper thread is left running on an endpoint the driver no longer knows. */
  lemma FailedStartCanOrphan()
    ensures exists actions :: Orphaned(Run(Boot(false), actions))
  {
    var endpoints := Record(KIND_USB_ENDPOINTS, 9, 2, Encode([Entry(1, 3, 64)]), [5]);
    var enable := Record(KIND_USB_BUS_EVENT, 9, 0, [2, 0, 0, 0, 0, 0, 0, 0, 0], []);
    var a1, a2 := CallInit(true, true), CallStart(false, true, false, [endpoints]);
    var a3, a4 := CallPass(Some(enable), Still(), {}, []), CallDeinit;
    FailedStartThenInit(endpoints, enable);
    RunFive(Boot(false), a1, a2, a3, a4, a1);
    OrphanWitness(Step(Step(Step(Step(Step(Boot(false), a1), a2), a3), a4), a1), [a1] + [a2] + [a3] + [a4] + [a1]);
  }

  lemma FailedStartThenInit(endpoints: Record, enable: Record)
    requires endpoints == Record(KIND_USB_ENDPOINTS, 9, 2, Encode([Entry(1, 3, 64)]), [5])
    requires enable == Record(KIND_USB_BUS_EVENT, 9, 0, [2, 0, 0, 0, 0, 0, 0, 0, 0], [])
    ensures var d := Step(Step(Boot(false), CallInit(true, true)), CallStart(false, true, false, [endpoints]));
      Orphaned(Step(Step(Step(d, CallPass(Some(enable), Still(), {}, [])), CallDeinit), CallInit(true, true)))
  {
    var d := Step(Boot(false), CallInit(true, true));
    ServedStart(d, endpoints, false);
    var e := Step(d, CallStart(false, true, false, [endpoints]));
    EnableRuns(e, enable);
    DeinitInitOrphans(Step(e, CallPass(Some(enable), Still(), {}, [])));
  }

  /** KEY3 left alone. */
  function Still(): KeyPoll {
    KeyPoll(false, false, [], false)
  }

  /** One OUT endpoint of generation 9 is installed. */
  predicate OneEndpoint(d: Driver) {
    && d.link.life.Alive? && d.link.worker.Safe3? && |d.link.table| == 16 && d.link.generation == 9
    && d.link.nextRequestId == 3 && d.link.table[0].fd == Some(5)
    && d.initialized && !d.pressed && !d.ejected && d.synchronized
  }

  lemma ServedStart(d: Driver, r: Record, registerOk: bool)
    requires d == Step(Boot(false), CallInit(true, true))
    requires r == Record(KIND_USB_ENDPOINTS, 9, 2, Encode([Entry(1, 3, 64)]), [5])
    ensures var e := Step(d, CallStart(false, true, registerOk, [r]));
      OneEndpoint(e) && !e.link.enabled && e.started == registerOk
  {
    AskedAfresh(d);
    var c := Configure(d.link, false, [r]);
    FirstConfigured(d.link, r);
    assert Stop(d) == d;
    assert Step(d, CallStart(false, true, registerOk, [r])) == d.(link := c.link, started := registerOk);
  }

  /** usb_init has just asked for its first configuration. */
  predicate Asking(l: Link) {
    l.life.Alive? && l.worker.Safe3? && |l.table| == 16 && l.generation == 0 && l.nextRequestId == 2
  }

  lemma AskedAfresh(d: Driver)
    requires d == Step(Boot(false), CallInit(true, true))
    ensures Asking(d.link) && d.initialized && !d.started && !d.pressed && !d.ejected && d.synchronized
  {}

  lemma FirstConfigured(l: Link, r: Record)
    requires Asking(l) && r == Record(KIND_USB_ENDPOINTS, 9, 2, Encode([Entry(1, 3, 64)]), [5])
    ensures var c := Configure(l, false, [r]);
      && c.verdict.Serving? && c.link.life.Alive? && c.link.worker.Safe3? && !c.link.enabled && |c.link.table| == 16
      && c.link.generation == 9 && c.link.nextRequestId == 3 && c.link.table[0].fd == Some(5)
  {
    var asked := SendConfiguration(l);
    QuiescedAwait(asked, 2, false, [r]);
    OneInstalled(Heard(asked, r), r);
  }

  lemma OneInstalled(l: Link, r: Record)
    requires l.life.Alive? && l.worker.Safe3? && |l.table| == 16
    requires r.body == Encode([Entry(1, 3, 64)]) && r.fds == [5]
    ensures var i := Install(l, r);
      && i.life.Alive? && !i.enabled && |i.table| == 16 && i.worker.Safe3?
      && i.generation == r.generation && i.nextRequestId == l.nextRequestId
      && i.table[0].fd == Some(5)
  {
    EncodeDecodes([Entry(1, 3, 64)]);
    assert SlotOf(1) == 0;
    LookupFinds([Entry(1, 3, 64)], 0, 8);
  }

  lemma EnableRuns(d: Driver, r: Record)
    requires r == Record(KIND_USB_BUS_EVENT, 9, 0, [2, 0, 0, 0, 0, 0, 0, 0, 0], [])
    requires OneEndpoint(d) && !d.link.enabled
    ensures var e := Step(d, CallPass(Some(r), Still(), {}, []));
      OneEndpoint(e) && e.link.enabled && e.link.table[0].running && e.link.table[0].eventOpen && e.started == d.started
  {
    var heard := d.(link := Heard(d.link, r));
    assert RuntimeRecord(d, r) == BusEvent(heard, r);
    assert BusEvent(heard, r).link == StartThreads(heard.link).(enabled := true);
  }

  lemma DeinitInitOrphans(d: Driver)
    requires OneEndpoint(d) && d.link.table[0].running && !d.started
    ensures Orphaned(Step(Step(d, CallDeinit), CallInit(true, true)))
  {}

  lemma DisableWithPollExits(d: Driver, r: Record)
    requires r == Record(KIND_USB_BUS_EVENT, 9, 0, [3, 0, 0, 0, 0, 0, 0, 0, 0], [])
    requires OneEndpoint(d) && d.link.enabled && d.link.table[0].eventOpen
    ensures Pollable(d.link, {0}) && RuntimeRecord(d, r).link.life.Alive?
    ensures Pass(d, Some(r), Still(), {0}, []).link.life.Exited?
  {
    var heard := d.(link := Heard(d.link, r));
    assert RuntimeRecord(d, r) == BusEvent(heard, r);
    assert BusEvent(heard, r).link == Halt(heard.link);
    assert !Halt(heard.link).table[0].eventOpen;
    assert 0 in {0};
  }

  /** A run in which all of this happens: one OUT endpoint, ENABLE, then DISABLE in the
      pass that poll reported the endpoint for. */
  lemma StalePollRun()
    ensures exists actions, r :: StaleIn(Run(Boot(false), actions), r)
  {
    var endpoints := Record(KIND_USB_ENDPOINTS, 9, 2, Encode([Entry(1, 3, 64)]), [5]);
    var enable := Record(KIND_USB_BUS_EVENT, 9, 0, [2, 0, 0, 0, 0, 0, 0, 0, 0], []);
    var disable := Record(KIND_USB_BUS_EVENT, 9, 0, [3, 0, 0, 0, 0, 0, 0, 0, 0], []);
    var a1, a2 := CallInit(true, true), CallStart(false, true, true, [endpoints]);
    var a3 := CallPass(Some(enable), Still(), {}, []);
    var d := Step(Boot(false), a1);
    ServedStart(d, endpoints, true);
    EnableRuns(Step(d, a2), enable);
    DisableWithPollExits(Step(Step(d, a2), a3), disable);
    RunOne(Boot(false), a1);
    RunStep(Boot(false), [a1], a2);
    RunStep(Boot(false), [a1] + [a2], a3);
    StalePollWitness(Step(Step(d, a2), a3), [a1] + [a2] + [a3], disable);
  }

  lemma StalePollWitness(d: Driver, actions: seq<Action>, r: Record)
    requires d == Run(Boot(false), actions) && StaleIn(d, r)
    ensures exists actions, r :: StaleIn(Run(Boot(false), actions), r)
  {}

  /** The record is survived, and the pass that handles it is not. */
  predicate StaleIn(d: Driver, r: Record) {
    && d.link.life.Alive? && Pollable(d.link, {0}) && RuntimeRecord(d, r).link.life.Alive?
    && Pass(d, Some(r), Still(), {0}, []).link.life.Exited?
  }

  lemma {:induction false} ServingIsDisabled(l: Link, id: u32, replacement: bool, quiesced: bool, inbox: seq<Record>)
    requires Await(l, id, replacement, quiesced, inbox).verdict.Serving?
    ensures !Await(l, id, replacement, quiesced, inbox).link.enabled
    decreases |inbox|
  {
    var heard := Heard(l, inbox[0]);
    if replacement && !quiesced && IsQuiesce(l, id, inbox[0]) && !IsRejection(l, id, inbox[0]) {
      ServingIsDisabled(Quiesce(heard, id), id, replacement, true, inbox[1..]);
    }
  }

  /** A new generation begins with no thread, no buffer and no packet in any slot, so
      nothing of the retired one can be read or sent in it. */
  lemma {:induction false} NewGenerationStartsEmpty(d: Driver, replacement: bool, inbox: seq<Record>, k: nat)
    requires Inv(d) && d.link.life.Alive? && k < 16
    requires Configure(d.link, replacement, inbox).verdict.Serving?
    ensures var c := Configure(d.link, replacement, inbox).link;
      |c.table| == 16 && !c.enabled
      && !c.table[k].running && !c.table[k].buffers && !c.table[k].eventOpen && !c.table[k].occupied
  {
    ConfigureIsConsistent(d.link, replacement, inbox);
    ServingIsDisabled(SendConfiguration(d.link), d.link.nextRequestId, replacement, !replacement, inbox);
    ServingIsAlive(SendConfiguration(d.link), d.link.nextRequestId, replacement, !replacement, inbox);
    var c := Configure(d.link, replacement, inbox).link;
    assert SlotOk(k, c.table[k], c.enabled);
  }

  lemma {:induction false} ServingIsAlive(l: Link, id: u32, replacement: bool, quiesced: bool, inbox: seq<Record>)
    requires Await(l, id, replacement, quiesced, inbox).verdict.Serving?
    ensures !Await(l, id, replacement, quiesced, inbox).link.life.Exited?
    decreases |inbox|
  {
    var heard := Heard(l, inbox[0]);
    if replacement && !quiesced && IsQuiesce(l, id, inbox[0]) && !IsRejection(l, id, inbox[0]) {
      ServingIsAlive(Quiesce(heard, id), id, replacement, true, inbox[1..]);
    }
  }

  /** While ejected, no endpoint descriptor is held. */
  predicate EjectedIsEmpty(d: Driver) {
    d.ejected ==> forall k :: 0 <= k < |d.link.table| ==> d.link.table[k].fd.None?
  }

  /** usb_start does not clear `ejected`. A usb_start that ends in SERVING leaves an
      ejected device with endpoints exactly when it was called while ejected and the
      supervisor sent any. */
  lemma StartWhileEjected(d: Driver, same: bool, builderOk: bool, registerOk: bool, inbox: seq<Record>)
    requires Inv(d) && d.link.life.Alive? && d.initialized && builderOk && !(d.started && same)
    requires Configure(Stop(d).link, d.link.generation != 0, inbox).verdict.Serving?
    ensures var n := if d.link.generation != 0 then 1 else 0;
      && n < |inbox|
      && (EjectedIsEmpty(Start(d, same, builderOk, registerOk, inbox)) <==> !d.ejected || inbox[n].fds == [])
  {
    HaltedIsConsistent(d.link);
    var s := Stop(d);
    var c := Configure(s.link, s.link.generation != 0, inbox);
    var asked, id := SendConfiguration(s.link), s.link.nextRequestId;
    if s.link.generation != 0 {
      ReplacementAwait(asked, id, inbox);
      var q := Quiesce(Heard(asked, inbox[0]), id);
      QuiescedAwait(q, id, true, inbox[1..]);
      InstalledIsEmptyIff(Heard(q, inbox[1]), inbox[1]);
    } else {
      QuiescedAwait(asked, id, false, inbox);
      InstalledIsEmptyIff(Heard(asked, inbox[0]), inbox[0]);
    }
  }

  lemma InstalledIsEmptyIff(l: Link, r: Record)
    requires WellSized(l) && l.life.Alive? && !Install(l, r).life.Exited?
    ensures (forall k :: 0 <= k < |l.table| ==> Install(l, r).table[k].fd.None?) <==> r.fds == []
  {
    var es := Entries(r.body, |r.fds|);
    MeasuresIffEncoding(r.body, |r.fds|, es);
    InstalledTable(l, r, es);
    if r.fds != [] {
      assert Install(l, r).table[SlotOf(es[0].address)].fd == Some(r.fds[0]);
    }
  }

  /** A rejected usb_start leaves the helpers of a started device stopped, because
      usb_stop runs before the supervisor is asked. Generation, table, bus and suspend
      state are as before exactly when the device was not both started and enabled. */
  lemma RejectedStart(d: Driver, registerOk: bool, inbox: seq<Record>)
    requires Inv(d) && d.link.life.Alive? && d.initialized && inbox != []
    requires d.link.nextRequestId != 0 && IsRejection(d.link, d.link.nextRequestId, inbox[0])
    ensures var e := Start(d, false, true, registerOk, inbox);
      && !e.started && e.suspended == d.suspended && e.ejected == d.ejected
      && e.link.generation == d.link.generation
      && (forall k :: 0 <= k < |d.link.table| ==> e.link.table[k].fd == d.link.table[k].fd)
      && (e.link.table == d.link.table && e.link.enabled == d.link.enabled <==> !(d.started && d.link.enabled))
  {
    var e := Start(d, false, true, registerOk, inbox);
    var s := Stop(d);
    assert e.link.table == s.link.table && e.link.enabled == s.link.enabled;
    if d.started && !d.link.enabled {
      forall k | 0 <= k < |d.link.table| ensures StopSlot(Safe3, k, d.link.table[k]) == d.link.table[k] {
        assert SlotOk(k, d.link.table[k], false);
      }
      assert s.link.table == d.link.table;
    }
  }

  // ------------------------------------------------------------ one service pass

  /** A control record that stops helper threads without ending the process. */
  predicate StopsHelpers(l: Link, r: Record) {
    || (r.kind == KIND_USB_BUS_EVENT && IsBusEvent(l, r) && (r.body[0] == 0 || r.body[0] == 1 || r.body[0] == 3))
    || (IsRuntimeQuiesce(l, r) && r.requestId != 0)
  }

  /** The drain loop trusts poll results taken before the control record was handled.
      A pass that reaches it ends the process exactly when some eventfd was reported
      and the record in between closed the eventfds. */
  lemma {:induction false} StalePollKills(d: Driver, record: Option<Record>, key: KeyPoll, polled: set<nat>)
    requires Inv(d) && d.link.life.Alive? && Pollable(d.link, polled)
    requires Arrivals(d, record, key).link.life.Alive?
    ensures Drain(Arrivals(d, record, key), polled).link.life.Exited? <==>
      polled != {} && record.Some? && StopsHelpers(d.link, record.value)
  {
    var e := if record.Some? then RuntimeRecord(d, record.value) else d;
    SenseLink(e, key);
    var arrived := Arrivals(d, record, key);
    assert arrived.link.table == e.link.table;
    if record.Some? && StopsHelpers(d.link, record.value) {
      StoppingClosesEvents(d, record.value);
      DrainOfClosed(arrived, polled);
    } else {
      if record.Some? {
        OtherRecordsKeepEvents(d, record.value);
      }
      DrainOfKept(d, arrived, polled);
    }
  }

  lemma DrainOfClosed(d: Driver, polled: set<nat>)
    requires d.link.life.Alive? && NoEvents(d.link.table)
    ensures Drain(d, polled).link.life.Exited? <==> polled != {}
  {
    if polled != {} {
      assert exists k :: k in polled;
    }
  }

  lemma DrainOfKept(d: Driver, e: Driver, polled: set<nat>)
    requires e.link.life.Alive? && Pollable(d.link, polled) && EventsKept(d.link.table, e.link.table)
    ensures Drain(e, polled) == e
  {}

  /** What a pass has done when it comes to ejection, insertion or drain. */
  function Arrivals(d: Driver, record: Option<Record>, key: KeyPoll): Driver {
    var e := if record.Some? then RuntimeRecord(d, record.value) else d;
    if e.link.life.Alive? then Sense(e, key) else e
  }

  predicate NoEvents(t: seq<Endpoint>) {
    forall k :: 0 <= k < |t| ==> !t[k].eventOpen
  }

  lemma CloseClosesEvents(l: Link)
    requires l.worker.Safe3?
    ensures NoEvents(StopThreads(l).table) && NoEvents(CloseEndpoints(l).table)
  {}

  lemma StoppingClosesEvents(d: Driver, r: Record)
    requires Consistent(d.link) && d.link.life.Alive? && StopsHelpers(d.link, r) && RuntimeRecord(d, r).link.life.Alive?
    ensures var t := RuntimeRecord(d, r).link.table;
      |t| == |d.link.table| && NoEvents(t)
  {
    var heard := d.(link := Heard(d.link, r));
    CloseClosesEvents(heard.link);
    if r.kind == KIND_USB_BUS_EVENT {
      BusEventLink(heard, r);
    } else {
      OtherRecordLink(d, r);
    }
  }

  predicate EventsKept(t: seq<Endpoint>, u: seq<Endpoint>) {
    |u| == |t| && forall k :: 0 <= k < |t| && t[k].eventOpen ==> u[k].eventOpen
  }

  lemma BusLinkKeepsEvents(l: Link, kind: byte)
    requires !(kind == 0 || kind == 1 || kind == 3)
    ensures EventsKept(l.table, BusLink(l, kind).table)
  {
    if kind == 2 && !l.enabled && CanStart(l.worker, l.table) {
      assert forall k :: 0 <= k < |l.table| ==> StartTable(l.worker, l.table)[k] == StartSlot(l.worker, k, l.table[k]);
    }
  }

  lemma OtherRecordsKeepEvents(d: Driver, r: Record)
    requires Consistent(d.link) && d.link.life.Alive?
    requires !StopsHelpers(d.link, r) && RuntimeRecord(d, r).link.life.Alive?
    ensures EventsKept(d.link.table, RuntimeRecord(d, r).link.table)
  {
    if r.kind == KIND_USB_BUS_EVENT {
      BusEventKeepsEvents(d.(link := Heard(d.link, r)), r);
    } else {
      OtherRecordLink(d, r);
    }
  }

  lemma BusEventKeepsEvents(d: Driver, r: Record)
    requires BusEvent(d, r).link.life.Alive? && !(IsBusEvent(d.link, r) && r.body[0] in {0, 1, 3})
    ensures EventsKept(d.link.table, BusEvent(d, r).link.table)
  {
    if IsBusEvent(d.link, r) {
      BusEventLink(d, r);
      BusLinkKeepsEvents(d.link, r.body[0]);
    }
  }

  /** The interface whose handle the drain loop signals for a slot. */
  function SignalledInterface(e: Endpoint): int {
    e.address % 128 - 1
  }

  /** Endpoint n belongs to interface n-1: the drain loop signals, as readable or
      writable, exactly the interface whose iface_read or iface_write uses that slot. */
  lemma DrainSignalsOwner(d: Driver, k: nat)
    requires Inv(d) && k < |d.link.table| && d.link.table[k].eventOpen
    ensures var i := SignalledInterface(d.link.table[k]);
      && 0 <= i < MAX_INTERFACES
      && (d.link.table[k].address < 128 <==> k == OutSlot(i))
      && (d.link.table[k].address >= 128 <==> k == InSlot(i))
  {
    assert SlotOk(k, d.link.table[k], d.link.enabled);
    NumberOfSlot(k);
  }

  lemma NumberOfSlot(k: nat)
    requires k < 254
    ensures AddressOf(k) % 128 == k / 2 + 1 && (AddressOf(k) < 128 <==> k % 2 == 0)
  {
    assert k / 2 + 1 < 128;
  }
}
