/** What every exchange of the generation protocol keeps, and what one completed
    configuration is known to have done. */
module GenerationFacts {
  import opened Common
  import opened Wire
  import opened EndpointMap
  import opened Generation
  import opened Ledger

  function Heard(l: Link, r: Record): Link {
    l.(log := l.log + [Received(r)])
  }

  // --------------------------------------------------------- what every run keeps

  function Orphans(t: seq<Endpoint>, k: nat): nat {
    if k < |t| then t[k].threads.orphans else 0
  }

  /** The flags of the table say which helpers were last started and not joined, and
      flags and orphans together count all that were not. */
  ghost predicate FlagsKnown(l: Link) {
    forall k: nat ::
      && (Flagged(l.log, k) <==> k < |l.table| && l.table[k].running && Threaded(l.worker, k))
      && Helpers(l.log, k) == Orphans(l.table, k) + if Flagged(l.log, k) then 1 else 0
  }

  predicate IdsKnown(l: Link) {
    IdsGrow(l.log) && (l.nextRequestId != 0 ==> LastId(l.log) < l.nextRequestId)
  }

  ghost predicate Orderly(l: Link) {
    FlagsKnown(l) && Tended(l.log) && IdsKnown(l)
  }

  ghost predicate SameDrift(l: Link, m: Link) {
    forall x: Fd :: Drift(m, x) == Drift(l, x)
  }

  /** What all exchanges have in common: the table keeps its size, no descriptor is
      gained or lost, and flags, joins and ids stay in order. */
  ghost predicate Keeps(l: Link, m: Link) {
    m.worker == l.worker && |m.table| == |l.table| && SameDrift(l, m) && (Orderly(l) ==> Orderly(m))
  }

  predicate SameHistory(a: seq<Event>, b: seq<Event>) {
    SameBus(a, b) && (SpawnedOnce(b) <==> SpawnedOnce(a))
  }

  /** No helper is flagged as running while the bus is not enabled. */
  predicate Tidy(l: Link) {
    l.enabled || forall k :: 0 <= k < |l.table| && Threaded(l.worker, k) ==> !l.table[k].running
  }

  /** All is kept, no bus event was heard and no helper was started. */
  ghost predicate Calm(l: Link, m: Link) {
    Keeps(l, m) && SameHistory(l.log, m.log) && (m.enabled ==> l.enabled) && (Tidy(l) ==> Tidy(m))
  }

  /** From l to m the process ended, or it was calm and a bus that is still enabled has
      the same endpoints. */
  ghost predicate Quietly(l: Link, m: Link) {
    m.life.Exited? || (Calm(l, m) && (m.enabled ==> m.table == l.table))
  }

  lemma KeepsTrans(l: Link, m: Link, n: Link)
    requires Keeps(l, m) && Keeps(m, n)
    ensures Keeps(l, n)
  {
    forall x: Fd ensures Drift(n, x) == Drift(l, x) {
      assert Drift(n, x) == Drift(m, x) && Drift(m, x) == Drift(l, x);
    }
  }

  lemma QuietlyTrans(l: Link, m: Link, n: Link)
    requires Quietly(l, m) && Quietly(m, n) && !m.life.Exited?
    ensures Quietly(l, n)
  {
    if !n.life.Exited? {
      KeepsTrans(l, m, n);
    }
  }

  /** Nothing happened, or the process came to wait or ended. */
  lemma StandingIsQuiet(l: Link, m: Link)
    requires m == l || m == l.(life := Blocked) || m.life.Exited?
    ensures Quietly(l, m)
  {
    if !m.life.Exited? {
      SameKeeps(l, m);
    }
  }

  lemma SameDriftTrans(l: Link, m: Link, n: Link)
    requires SameDrift(l, m) && SameDrift(m, n)
    ensures SameDrift(l, n)
  {
    forall x: Fd ensures Drift(n, x) == Drift(l, x) {
      assert Drift(n, x) == Drift(m, x) && Drift(m, x) == Drift(l, x);
    }
  }

  /** Changing only what descriptors, flags and ids do not depend on. */
  lemma SameKeeps(l: Link, m: Link)
    requires m.log == l.log && m.nextRequestId == l.nextRequestId && m.worker == l.worker && |m.table| == |l.table|
    requires forall k :: 0 <= k < |l.table| ==>
      var e, f := l.table[k], m.table[k];
      f.fd == e.fd && f.running == e.running && f.threads.orphans == e.threads.orphans
    ensures Keeps(l, m)
  {
    assert forall k: nat :: Orphans(m.table, k) == Orphans(l.table, k);
    forall x: Fd ensures Drift(m, x) == Drift(l, x) {
      OpenSame(m.table, l.table, x);
    }
  }

  /** One more event that starts, joins and closes nothing and moves no descriptor. */
  lemma EventKeeps(l: Link, e: Event)
    requires (e.Sent? && !Configures(e)) || (e.Received? && e.record.fds == [])
    ensures Keeps(l, l.(log := l.log + [e]))
  {
    var m := l.(log := l.log + [e]);
    HistoryStep(l.log, e);
    HelperStep(l.log, e, 0);
    forall k: nat ensures Flagged(m.log, k) == Flagged(l.log, k) && Helpers(m.log, k) == Helpers(l.log, k) {
      HelperStep(l.log, e, k);
    }
    forall x: Fd ensures Drift(m, x) == Drift(l, x) {
      FdsStep(l.log, e, x);
    }
  }

  lemma EventIsQuiet(l: Link, e: Event)
    requires (e.Sent? && !Configures(e)) || (e.Received? && e.record.fds == [] && !IsBus(e))
    ensures Quietly(l, l.(log := l.log + [e]))
  {
    EventKeeps(l, e);
    HistoryStep(l.log, e);
    HelperStep(l.log, e, 0);
  }

  lemma AskIsQuiet(l: Link)
    ensures Quietly(l, SendConfiguration(l))
  {
    var m := SendConfiguration(l);
    if l.nextRequestId != 0 {
      var e := Sent(KIND_CONFIGURE, l.generation, l.nextRequestId);
      HistoryStep(l.log, e);
      HelperStep(l.log, e, 0);
      forall k: nat ensures Flagged(m.log, k) == Flagged(l.log, k) && Helpers(m.log, k) == Helpers(l.log, k) {
        HelperStep(l.log, e, k);
      }
      forall x: Fd ensures Drift(m, x) == Drift(l, x) {
        FdsStep(l.log, e, x);
      }
    }
  }

  lemma StopKeeps(l: Link)
    ensures Keeps(l, StopThreads(l)) && SameHistory(l.log, StopThreads(l).log)
    ensures Orderly(l) ==> forall k: nat :: !Flagged(StopThreads(l).log, k)
  {
    var s := StopThreads(l);
    var joins := JoinEvents(l.worker, l.table);
    TableEventsAreQuiet(l.worker, l.table);
    HistoryAfterQuiet(l.log, joins);
    OnceAfterQuiet(l.log, joins);
    if Orderly(l) {
      JoinsAreTended(l.worker, l.table, l.log);
      forall k: nat ensures !Flagged(s.log, k) && Helpers(s.log, k) == Orphans(s.table, k) {
        FlagsAfterJoins(l.worker, l.table, l.log, k);
      }
    }
    forall x: Fd ensures Drift(s, x) == Drift(l, x) {
      StopKeepsFds(l, x);
    }
  }

  lemma StopKeepsFds(l: Link, x: Fd)
    ensures Drift(StopThreads(l), x) == Drift(l, x)
  {
    FdsConcat(l.log, JoinEvents(l.worker, l.table), x);
    JoinsMoveNothing(l.worker, l.table, x);
    OpenSame(StopThreads(l).table, l.table, x);
  }

  /** Bus events other than ENABLE end this way. */
  function Halt(l: Link): Link {
    StopThreads(l).(enabled := false)
  }

  lemma HaltIsQuiet(l: Link)
    ensures Quietly(l, Halt(l))
  {
    StopKeeps(l);
    SameKeeps(StopThreads(l), Halt(l));
    KeepsTrans(l, StopThreads(l), Halt(l));
  }

  /** Closing moves exactly the open descriptors from the table to the closed ones. */
  lemma CloseMovesFds(l: Link, x: Fd)
    ensures var c := CloseEndpoints(l);
      In(c.log, x) == In(l.log, x) && Out(c.log, x) == Out(l.log, x) + Open(l.table, x) && Open(c.table, x) == 0
  {
    FdsConcat(l.log, JoinEvents(l.worker, l.table), x);
    JoinsMoveNothing(l.worker, l.table, x);
    OpenSame(StopThreads(l).table, l.table, x);
    var s := StopThreads(l);
    FdsConcat(s.log, CloseEvents(s.table), x);
    ClosesMoveEverything(s.table, x);
    NothingOpen(CloseTable(s.table), x);
  }

  lemma CloseIsQuiet(l: Link)
    ensures Quietly(l, CloseEndpoints(l))
  {
    var h, c := Halt(l), CloseEndpoints(l);
    var closes := CloseEvents(h.table);
    HaltIsQuiet(l);
    StopKeeps(l);
    TableEventsAreQuiet(h.worker, h.table);
    HistoryAfterQuiet(h.log, closes);
    OnceAfterQuiet(h.log, closes);
    if Orderly(l) {
      ClosesAreTended(h.table, h.log);
      forall k: nat ensures !Flagged(c.log, k) && Helpers(c.log, k) == Orphans(c.table, k) {
        FlagsAfterCloses(h.table, h.log, k);
      }
    }
    forall x: Fd ensures Drift(c, x) == Drift(l, x) {
      CloseMovesFds(l, x);
    }
  }

  lemma QuiesceIsQuiet(l: Link, id: u32)
    ensures Quietly(l, Quiesce(l, id)) && Quiesce(l, id).life == l.life
  {
    CloseIsQuiet(l);
    var c := CloseEndpoints(l);
    EventIsQuiet(c, Sent(KIND_QUIESCED, c.generation, id));
    if !l.life.Exited? {
      QuietlyTrans(l, c, Quiesce(l, id));
    }
  }

  /** Hearing a record without descriptors, and answering it or taking all down. */
  lemma AnswerIsQuiet(l: Link, r: Record)
    requires r.fds == [] && r.kind != KIND_USB_BUS_EVENT && !l.life.Exited?
    ensures Quietly(l, Heard(l, r))
    ensures Quietly(l, Send(Heard(l, r), KIND_USB_CONTROL_RESPONSE, r.requestId))
    ensures Quietly(l, Quiesce(Heard(l, r), r.requestId))
  {
    var heard := Heard(l, r);
    EventIsQuiet(l, Received(r));
    EventIsQuiet(heard, Sent(KIND_USB_CONTROL_RESPONSE, heard.generation, r.requestId));
    QuietlyTrans(l, heard, Send(heard, KIND_USB_CONTROL_RESPONSE, r.requestId));
    QuiesceIsQuiet(heard, r.requestId);
    QuietlyTrans(l, heard, Quiesce(heard, r.requestId));
  }

  lemma InstallIsQuiet(l: Link, r: Record)
    requires WellSized(l) && r.kind != KIND_USB_BUS_EVENT
    ensures Quietly(l, Install(Heard(l, r), r))
  {
    var heard := Heard(l, r);
    var i := Install(heard, r);
    if !i.life.Exited? {
      var c := CloseEndpoints(heard);
      HeardKeepsOrder(l, r);
      CloseIsQuiet(heard);
      forall x: Fd ensures Drift(i, x) == Drift(l, x) {
        FdsStep(l.log, Received(r), x);
        CloseMovesFds(heard, x);
        InstallOpensAll(c.table, Entries(r.body, |r.fds|), r.fds, MaxNumber(l.worker), x);
      }
    }
  }

  lemma HeardKeepsOrder(l: Link, r: Record)
    requires r.kind != KIND_USB_BUS_EVENT
    ensures Orderly(l) ==> Orderly(Heard(l, r))
    ensures SameHistory(l.log, Heard(l, r).log)
  {
    HistoryStep(l.log, Received(r));
    forall k: nat ensures Flagged(Heard(l, r).log, k) == Flagged(l.log, k)
      ensures Helpers(Heard(l, r).log, k) == Helpers(l.log, k)
    {
      HelperStep(l.log, Received(r), k);
    }
    HelperStep(l.log, Received(r), 0);
  }

  lemma {:induction false} AwaitIsQuiet(l: Link, id: u32, replacement: bool, quiesced: bool, inbox: seq<Record>)
    requires WellSized(l) && !l.life.Exited?
    ensures Quietly(l, Await(l, id, replacement, quiesced, inbox).link)
    decreases |inbox|
  {
    if inbox == [] {
      StandingIsQuiet(l, l.(life := Blocked));
    } else {
      var r := inbox[0];
      var heard := Heard(l, r);
      if IsRejection(l, id, r) {
        EventIsQuiet(l, Received(r));
      } else if replacement && !quiesced && IsQuiesce(l, id, r) {
        EventIsQuiet(l, Received(r));
        QuiesceIsQuiet(heard, id);
        var q := Quiesce(heard, id);
        QuietlyTrans(l, heard, q);
        AwaitIsQuiet(q, id, replacement, true, inbox[1..]);
        QuietlyTrans(l, q, Await(q, id, replacement, true, inbox[1..]).link);
      } else if r.kind == KIND_USB_ENDPOINTS && quiesced && r.requestId == id {
        ServingIsQuiet(l, r, id);
      }
    }
  }

  lemma ServingIsQuiet(l: Link, r: Record, id: u32)
    requires WellSized(l) && r.kind == KIND_USB_ENDPOINTS
    ensures var i := Install(Heard(l, r), r);
      i.life.Exited? || Quietly(l, Send(i, KIND_SERVING, id))
  {
    InstallIsQuiet(l, r);
    var i := Install(Heard(l, r), r);
    if !i.life.Exited? {
      EventIsQuiet(i, Sent(KIND_SERVING, i.generation, id));
      QuietlyTrans(l, i, Send(i, KIND_SERVING, id));
    }
  }

  /** A configuration, however it ends short of exit, keeps the descriptor balance, the
      order of helpers and closes, and growing ids. */
  lemma ConfigureIsQuiet(l: Link, replacement: bool, inbox: seq<Record>)
    requires WellSized(l) && !l.life.Exited?
    ensures Quietly(l, Configure(l, replacement, inbox).link)
  {
    AskIsQuiet(l);
    var asked := SendConfiguration(l);
    if !asked.life.Exited? {
      AwaitIsQuiet(asked, l.nextRequestId, replacement, !replacement, inbox);
      QuietlyTrans(l, asked, Await(asked, l.nextRequestId, replacement, !replacement, inbox).link);
    }
  }

  /** Starting helpers is the one thing that is not quiet. */
  lemma StartKeeps(l: Link)
    requires CanStart(l.worker, l.table)
    ensures var m := StartThreads(l).(enabled := true);
      && Keeps(l, m) && SameBus(l.log, m.log)
      && (SpawnedOnce(m.log) <==>
            && SpawnedOnce(l.log)
            && forall k :: 0 <= k < |l.table| && Startable(l.worker, k, l.table[k]) ==> Helpers(l.log, k) == 0)
  {
    var m := StartThreads(l).(enabled := true);
    var spawns := SpawnEvents(l.worker, l.table);
    TableEventsAreQuiet(l.worker, l.table);
    HistoryAfterQuiet(l.log, spawns);
    OnceAfterSpawns(l.worker, l.table, l.log);
    FlagsAfterSpawns(l.worker, l.table, l.log, 0);
    forall k: nat
      ensures Flagged(m.log, k) == (Flagged(l.log, k) || (k < |l.table| && Startable(l.worker, k, l.table[k])))
    {
      FlagsAfterSpawns(l.worker, l.table, l.log, k);
    }
    if Orderly(l) {
      forall k: nat ensures Helpers(m.log, k) == Orphans(m.table, k) + if Flagged(m.log, k) then 1 else 0 {
        FlagsAfterSpawns(l.worker, l.table, l.log, k);
      }
    }
    forall x: Fd ensures Drift(m, x) == Drift(l, x) {
      FdsConcat(l.log, spawns, x);
      SpawnsMoveNothing(l.worker, l.table, x);
      OpenSame(m.table, l.table, x);
    }
  }

  /** Re-initialisation forgets exactly the descriptors that were still open. */
  lemma ResetMovesFds(l: Link, before: bool, x: Fd)
    ensures var m := Reset(l, before);
      In(m.log, x) == In(l.log, x) && Open(m.table, x) == 0
      && Out(m.log, x) == Out(l.log, x) + if before then Open(l.table, x) else 0
  {
    FdsConcat(l.log, ForgetEvents(l.table), x);
    ForgettingMovesFds(l.table, x);
    NothingOpen(ResetTable(l.table), x);
    assert l.log + [] == l.log;
  }

  lemma ResetKeeps(l: Link, before: bool)
    ensures var m := Reset(l, before);
      && SameHistory(l.log, m.log) && (Orderly(l) ==> Orderly(m)) && (before ==> Keeps(l, m))
  {
    var m := Reset(l, before);
    if before {
      TableEventsAreQuiet(l.worker, l.table);
      HistoryAfterQuiet(l.log, ForgetEvents(l.table));
      OnceAfterQuiet(l.log, ForgetEvents(l.table));
      FlagsAfterForgetting(l.table, l.log, 0);
      forall k: nat ensures Flagged(m.log, k) == Flagged(l.log, k) && Helpers(m.log, k) == Helpers(l.log, k) {
        FlagsAfterForgetting(l.table, l.log, k);
      }
      forall x: Fd ensures Drift(m, x) == Drift(l, x) {
        ResetMovesFds(l, before, x);
      }
    } else {
      assert l.log + [] == l.log;
    }
  }

  lemma ZeroedIsOrderly(w: Worker)
    ensures Orderly(Zeroed(w)) && SpawnedOnce(Zeroed(w).log) && WellSized(Zeroed(w))
  {}

  // ------------------------------------------------------------ endpoint table

  /** ENDPOINTS is accepted exactly when its body encodes valid, pairwise different
      addresses, one per descriptor. */
  lemma InstallAcceptsExactly(l: Link, r: Record)
    requires l.life.Alive?
    ensures !Install(l, r).life.Exited? <==>
      exists es :: Describes(r, es) && Placeable(es, MaxNumber(l.worker))
  {
    if Measures(r.body, |r.fds|) {
      MeasuresIffEncoding(r.body, |r.fds|, Entries(r.body, |r.fds|));
      assert Describes(r, Entries(r.body, |r.fds|));
    }
    forall es | Describes(r, es) ensures Measures(r.body, |r.fds|) && Entries(r.body, |r.fds|) == es {
      MeasuresIffEncoding(r.body, |r.fds|, es);
    }
  }

  ghost predicate Describes(r: Record, es: seq<Entry>) {
    |es| == |r.fds| && |es| < 0x1_0000 && r.body == Encode(es)
  }

  /** The table then holds each entry, with its own descriptor, in the slot of its
      address, and no other descriptor. */
  lemma {:induction false} InstalledTable(l: Link, r: Record, es: seq<Entry>)
    requires WellSized(l) && l.life.Alive? && Describes(r, es) && Placeable(es, MaxNumber(l.worker))
    ensures var t := Install(l, r).table;
      && |t| == |l.table|
      && (forall i :: 0 <= i < |es| ==>
            var k := SlotOf(es[i].address);
            k < |t| && t[k].fd == Some(r.fds[i])
            && Entry(t[k].address, t[k].transferType, t[k].maxPacket) == es[i])
      && (forall k :: 0 <= k < |t| && t[k].fd.Some? ==> exists i :: 0 <= i < |es| && es[i].address == AddressOf(k))
    ensures Install(l, r).generation == r.generation
  {
    MeasuresIffEncoding(r.body, |r.fds|, es);
    AddressesAndSlots(MaxNumber(l.worker));
    var c := CloseEndpoints(l);
    var t := Install(l, r).table;
    assert t == FillTable(c.table, es, r.fds);
    forall i | 0 <= i < |es|
      ensures var k := SlotOf(es[i].address);
        k < |t| && t[k].fd == Some(r.fds[i])
        && Entry(t[k].address, t[k].transferType, t[k].maxPacket) == es[i]
    {
      LookupFinds(es, i, MaxNumber(l.worker));
    }
    forall k | 0 <= k < |t| && t[k].fd.Some? ensures exists i :: 0 <= i < |es| && es[i].address == AddressOf(k) {
      var i := Lookup(es, k).value;
      assert AddressOf(SlotOf(es[i].address)) == es[i].address;
    }
  }

  lemma LookupFinds(es: seq<Entry>, i: nat, maxNumber: nat)
    requires i < |es| && Placeable(es, maxNumber) && maxNumber <= 127
    ensures Lookup(es, SlotOf(es[i].address)) == Some(i)
  {
    AddressesAndSlots(maxNumber);
    var k := SlotOf(es[i].address);
    var found := Lookup(es, k);
    assert found.Some?;
    var j := found.value;
    assert AddressOf(SlotOf(es[j].address)) == AddressOf(SlotOf(es[i].address));
  }

  // -------------------------------------------------------- one reconfiguration

  /** What taking the current generation down leaves in the log. */
  function Takedown(l: Link): seq<Event> {
    JoinEvents(l.worker, l.table) + CloseEvents(StopTable(l.worker, l.table))
  }

  lemma {:induction false} TakedownClosesAll(t: seq<Endpoint>, k: nat)
    requires k < |t| && t[k].fd.Some?
    ensures Closed(k, t[k].fd.value) in CloseEvents(t)
  {
    if k < |t| - 1 {
      TakedownClosesAll(t[..|t| - 1], k);
    }
  }

  lemma {:induction false} ClosedTableIsQuiet(w: Worker, t: seq<Endpoint>)
    requires forall k :: 0 <= k < |t| ==> t[k].fd.None? && !(Threaded(w, k) && t[k].running)
    ensures JoinEvents(w, t) == [] && CloseEvents(t) == []
  {
    if t != [] {
      ClosedTableIsQuiet(w, t[..|t| - 1]);
    }
  }

  lemma NothingLeftAfterClose(l: Link)
    ensures Takedown(CloseEndpoints(l)) == []
  {
    var c := CloseEndpoints(l);
    ClosedTableIsQuiet(c.worker, c.table);
    ClosedTableIsQuiet(c.worker, StopTable(c.worker, c.table));
  }

  /** Once quiesced, the next record decides. */
  lemma QuiescedAwait(l: Link, id: u32, replacement: bool, inbox: seq<Record>)
    requires l.life.Alive?
    ensures var a := Await(l, id, replacement, true, inbox);
      && (a.verdict.Serving? ==>
            && inbox != [] && inbox[0].kind == KIND_USB_ENDPOINTS && inbox[0].requestId == id
            && !Install(Heard(l, inbox[0]), inbox[0]).life.Exited?
            && a.link == Send(Install(Heard(l, inbox[0]), inbox[0]), KIND_SERVING, id) && a.rest == inbox[1..])
      && (a.verdict.Rejected? ==> inbox != [] && IsRejection(l, id, inbox[0]) && a.link == Heard(l, inbox[0]))
  {}

  lemma QuiescedEndpoints(l: Link, id: u32, replacement: bool, inbox: seq<Record>)
    requires l.life.Alive? && inbox != [] && inbox[0].kind == KIND_USB_ENDPOINTS && inbox[0].requestId == id
    requires !Install(Heard(l, inbox[0]), inbox[0]).life.Exited?
    ensures Await(l, id, replacement, true, inbox)
         == Reply(Send(Install(Heard(l, inbox[0]), inbox[0]), KIND_SERVING, id), Serving, inbox[1..])
  {}

  /** A replacement first hears a rejection or QUIESCE. */
  lemma ReplacementAwait(l: Link, id: u32, inbox: seq<Record>)
    requires l.life.Alive?
    ensures var a := Await(l, id, true, false, inbox);
      a.verdict.Nothing? ||
      (inbox != [] &&
       (if IsRejection(l, id, inbox[0]) then a.verdict.Rejected? && a.link == Heard(l, inbox[0])
        else IsQuiesce(l, id, inbox[0])
             && a == Await(Quiesce(Heard(l, inbox[0]), id), id, true, true, inbox[1..])))
  {}

  lemma InstallLog(l: Link, r: Record)
    requires !Install(l, r).life.Exited?
    ensures Install(l, r).log == l.log + Takedown(l) && Install(l, r).generation == r.generation
  {}

  lemma QuiesceLog(l: Link, id: u32)
    ensures Quiesce(l, id).log == l.log + Takedown(l) + [Sent(KIND_QUIESCED, l.generation, id)]
    ensures Takedown(Quiesce(l, id)) == [] && Quiesce(l, id).generation == l.generation
    ensures !Quiesce(l, id).enabled && forall k :: 0 <= k < |l.table| ==> Quiesce(l, id).table[k].fd.None?
  {
    NothingLeftAfterClose(l);
  }

  /** If a configuration ends in SERVING, the records received were exactly QUIESCE
      (for a replacement) and ENDPOINTS, both answering this request, and the records
      sent were CONFIGURE, QUIESCED for the old generation, and SERVING for the new
      one, with the old generation taken down in between. */
  lemma ReplacementTrace(l: Link, inbox: seq<Record>)
    requires l.life.Alive? && Configure(l, true, inbox).verdict.Serving?
    ensures var c := Configure(l, true, inbox);
      var id := l.nextRequestId;
      && id > 0 && |inbox| >= 2 && c.rest == inbox[2..]
      && IsQuiesce(l, id, inbox[0])
      && inbox[1].kind == KIND_USB_ENDPOINTS && inbox[1].requestId == id
      && c.link.generation == inbox[1].generation
      && c.link.log == l.log + [Sent(KIND_CONFIGURE, l.generation, id)]
           + [Received(inbox[0])] + Takedown(l) + [Sent(KIND_QUIESCED, l.generation, id)]
           + [Received(inbox[1])] + [Sent(KIND_SERVING, inbox[1].generation, id)]
  {
    var id := l.nextRequestId;
    var asked := SendConfiguration(l);
    ReplacementAwait(asked, id, inbox);
    var heard := Heard(asked, inbox[0]);
    QuiesceLog(heard, id);
    assert Takedown(heard) == Takedown(l);
    var q := Quiesce(heard, id);
    QuiescedAwait(q, id, true, inbox[1..]);
    InstallLog(Heard(q, inbox[1]), inbox[1]);
    assert Takedown(Heard(q, inbox[1])) == [];
    assert inbox[1..][1..] == inbox[2..];
  }

  lemma {:induction false} FirstConfigurationTrace(l: Link, inbox: seq<Record>)
    requires l.life.Alive? && Configure(l, false, inbox).verdict.Serving?
    ensures var c := Configure(l, false, inbox);
      var id := l.nextRequestId;
      && id > 0 && |inbox| >= 1 && c.rest == inbox[1..]
      && inbox[0].kind == KIND_USB_ENDPOINTS && inbox[0].requestId == id
      && c.link.generation == inbox[0].generation
      && c.link.log == l.log + [Sent(KIND_CONFIGURE, l.generation, id)]
           + [Received(inbox[0])] + Takedown(l) + [Sent(KIND_SERVING, inbox[0].generation, id)]
  {
    var asked := SendConfiguration(l);
    QuiescedAwait(asked, l.nextRequestId, false, inbox);
    InstallLog(Heard(asked, inbox[0]), inbox[0]);
    assert Takedown(Heard(asked, inbox[0])) == Takedown(l);
  }

  /** A rejection that comes first leaves the old generation as it was; one that comes
      after QUIESCE leaves nothing open. There is no third way to be rejected. */
  lemma RejectionIsEarlyOrEmpty(l: Link, replacement: bool, inbox: seq<Record>)
    requires l.life.Alive? && Configure(l, replacement, inbox).verdict.Rejected?
    ensures var c := Configure(l, replacement, inbox).link;
      var next := (l.nextRequestId + 1) % 0x1_0000_0000;
      && inbox != []
      && (|| c == l.(nextRequestId := next,
                     log := l.log + [Sent(KIND_CONFIGURE, l.generation, l.nextRequestId), Received(inbox[0])])
          || (replacement && IsQuiesce(l, l.nextRequestId, inbox[0]) && !c.enabled
              && forall k :: 0 <= k < |c.table| ==> c.table[k].fd.None?))
  {
    var id := l.nextRequestId;
    var asked := SendConfiguration(l);
    if replacement {
      ReplacementAwait(asked, id, inbox);
      var heard := Heard(asked, inbox[0]);
      QuiesceLog(heard, id);
      QuiescedAwait(Quiesce(heard, id), id, true, inbox[1..]);
    } else {
      QuiescedAwait(asked, id, false, inbox);
    }
    assert Heard(asked, inbox[0]).log
        == l.log + [Sent(KIND_CONFIGURE, l.generation, id), Received(inbox[0])];
  }

  // --------------------------------------------------- how a configuration ends

  /** ENDPOINTS for this request, encoding valid and pairwise different addresses, one per
      descriptor. */
  ghost predicate GoodEndpoints(l: Link, id: u32, r: Record) {
    && r.kind == KIND_USB_ENDPOINTS && r.requestId == id
    && exists es :: Describes(r, es) && Placeable(es, MaxNumber(l.worker))
  }

  /** The supervisor retires the old generation and announces a new one. */
  ghost predicate Replaces(l: Link, inbox: seq<Record>) {
    |inbox| >= 2 && IsQuiesce(l, l.nextRequestId, inbox[0]) && GoodEndpoints(l, l.nextRequestId, inbox[1])
  }

  /** It rejects the request, before or after it has retired the old generation. */
  predicate RejectsReplacement(l: Link, inbox: seq<Record>) {
    inbox != [] &&
    (IsRejection(l, l.nextRequestId, inbox[0])
     || (|inbox| >= 2 && IsQuiesce(l, l.nextRequestId, inbox[0]) && IsRejection(l, l.nextRequestId, inbox[1])))
  }

  /** There is nothing more to read before it has decided. */
  predicate LeavesOpen(l: Link, replacement: bool, inbox: seq<Record>) {
    inbox == [] || (replacement && |inbox| == 1 && IsQuiesce(l, l.nextRequestId, inbox[0]))
  }

  lemma QuiescedOutcome(l: Link, id: u32, replacement: bool, inbox: seq<Record>)
    requires l.life.Alive?
    ensures var a := Await(l, id, replacement, true, inbox);
      && (a.verdict.Serving? <==> inbox != [] && GoodEndpoints(l, id, inbox[0]))
      && (a.verdict.Rejected? <==> inbox != [] && IsRejection(l, id, inbox[0]))
      && a.link.life == if inbox == [] then Blocked else if a.verdict.Nothing? then Exited else Alive
  {
    if inbox != [] {
      InstallAcceptsExactly(Heard(l, inbox[0]), inbox[0]);
    }
  }

  /** A replacement is served exactly when QUIESCE and then good ENDPOINTS answer the request,
      rejected exactly when a rejection comes first or right after QUIESCE, and waits when the
      records run out before that; every other record ends the process. */
  lemma ReplacementOutcome(l: Link, inbox: seq<Record>)
    requires l.life.Alive? && l.nextRequestId != 0
    ensures var c := Configure(l, true, inbox);
      && (c.verdict.Serving? <==> Replaces(l, inbox))
      && (c.verdict.Rejected? <==> RejectsReplacement(l, inbox))
      && c.link.life == if LeavesOpen(l, true, inbox) then Blocked else if c.verdict.Nothing? then Exited else Alive
  {
    var id, asked := l.nextRequestId, SendConfiguration(l);
    if inbox != [] && IsQuiesce(l, id, inbox[0]) {
      QuiescedOutcome(Quiesce(Heard(asked, inbox[0]), id), id, true, inbox[1..]);
    }
  }

  /** A first configuration is served exactly when good ENDPOINTS answer the request, and
      rejected exactly when a rejection does. */
  lemma FirstOutcome(l: Link, inbox: seq<Record>)
    requires l.life.Alive? && l.nextRequestId != 0
    ensures var c := Configure(l, false, inbox);
      && (c.verdict.Serving? <==> inbox != [] && GoodEndpoints(l, l.nextRequestId, inbox[0]))
      && (c.verdict.Rejected? <==> inbox != [] && IsRejection(l, l.nextRequestId, inbox[0]))
      && c.link.life == if inbox == [] then Blocked else if c.verdict.Nothing? then Exited else Alive
  {
    QuiescedOutcome(SendConfiguration(l), l.nextRequestId, false, inbox);
  }

  /** While the supervisor is asked, a record that does not answer this request, or comes from
      another generation without opening a new one, ends the process. */
  lemma ForeignRecordEndsIt(l: Link, replacement: bool, inbox: seq<Record>)
    requires l.life.Alive? && l.nextRequestId != 0 && inbox != []
    requires inbox[0].requestId != l.nextRequestId
          || (inbox[0].generation != l.generation && inbox[0].kind != KIND_USB_ENDPOINTS)
    ensures Configure(l, replacement, inbox).link.life.Exited?
  {}

  /** The activation in a bus event is its last eight bytes, big-endian. */
  lemma ActivationIsBigEndian(b: seq<byte>)
    requires |b| == 8
    ensures Be64(b) == Word(b[0], b[1], b[2], b[3]) * 0x1_0000_0000 + Word(b[4], b[5], b[6], b[7])
  {
    WordsAreBigEndian(b[..4]);
    WordsAreBigEndian(b[4..]);
  }
}
