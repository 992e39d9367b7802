/** Concrete runs of the legacy driver, from usbInit on, that show what its hypotheses are
    for. */
module LegacyRuns {
  import opened Common
  import opened Wire
  import opened EndpointMap
  import opened Generation
  import opened GenerationFacts
  import opened LegacyUsb
  import opened LegacyFacts
  import opened LegacyLoop

  /** Some run of the driver ends in d. */
  ghost predicate Reachable(d: Driver) {
    exists inbox, actions :: d == Run(Started(inbox), actions)
  }

  lemma BeginsReachable(inbox: seq<Record>)
    ensures Reachable(Started(inbox))
  {
    assert Run(Started(inbox), []) == Started(inbox);
  }

  lemma StaysReachable(d: Driver, a: Action)
    requires Reachable(d)
    ensures Reachable(Step(d, a))
  {
    var inbox, actions :| d == Run(Started(inbox), actions);
    assert (actions + [a])[..|actions|] == actions;
    assert Step(d, a) == Run(Started(inbox), actions + [a]);
  }

  /** Two OUT endpoints, number 1 and 2, of generation 9. */
  predicate TwoOutEndpoints(d: Driver) {
    && d.link.life.Alive? && d.link.worker.Legacy? && |d.link.table| == 14 && d.link.generation == 9
    && d.link.table[0].fd == Some(5) && d.link.table[0].maxPacket == 64
    && d.link.table[2].fd == Some(6) && d.link.table[2].maxPacket == 64
    && forall k :: 0 <= k < 14 && k != 0 && k != 2 ==> d.link.table[k].fd.None?
  }

  function TwoEntries(): seq<Entry> {
    [Entry(1, 3, 64), Entry(2, 3, 64)]
  }

  function Endpoints(): Record {
    Record(KIND_USB_ENDPOINTS, 9, 1, Encode(TwoEntries()), [5, 6])
  }

  function Bus(kind: byte): Record {
    Record(KIND_USB_BUS_EVENT, 9, 0, [kind, 0, 0, 0, 0, 0, 0, 0, 0], [])
  }

  function Passing(r: Record): Action {
    Happens(Reenters(Some(r), Answer(false, []), []))
  }

  lemma OtherSlotsAreEmpty(t: seq<Endpoint>, es: seq<Entry>, k: nat)
    requires |es| == 2 && es[0].address == 1 && es[1].address == 2 && |t| == 14 && k < 14 && k != 0 && k != 2
    requires t[k].fd.Some? ==> exists i :: 0 <= i < |es| && es[i].address == AddressOf(k)
    ensures t[k].fd.None?
  {
    assert AddressOf(k) == 128 * (k % 2) + k / 2 + 1;
  }

  lemma TwoArePlaceable(es: seq<Entry>)
    requires |es| == 2 && es[0].address == 1 && es[1].address == 2
    ensures Placeable(es, 7) && SlotOf(es[0].address) == 0 && SlotOf(es[1].address) == 2
  {}

  lemma InstalledAt(l: Link, r: Record, es: seq<Entry>, i: nat)
    requires WellSized(l) && l.life.Alive? && Describes(r, es) && Placeable(es, MaxNumber(l.worker)) && i < |es|
    ensures var t, k := Install(l, r).table, SlotOf(es[i].address);
      k < |t| && t[k].fd == Some(r.fds[i]) && t[k].maxPacket == es[i].maxPacket
  {
    InstalledTable(l, r, es);
    var t, k := Install(l, r).table, SlotOf(es[i].address);
    assert Entry(t[k].address, t[k].transferType, t[k].maxPacket) == es[i];
  }

  lemma InstallsTwoOut(l: Link, r: Record, es: seq<Entry>)
    requires |es| == 2 && es[0] == Entry(1, 3, 64) && es[1] == Entry(2, 3, 64) && Describes(r, es)
    requires |r.fds| == 2 && r.fds[0] == 5 && r.fds[1] == 6
    requires l.life.Alive? && l.worker.Legacy? && |l.table| == 14 && r.generation == 9
    ensures TwoOutEndpoints(Driver(true, 0, false, Install(l, r))) && !Install(l, r).enabled
  {
    TwoArePlaceable(es);
    InstallAcceptsExactly(l, r);
    InstallKeepsShape(l, r);
    InstalledAt(l, r, es, 0);
    InstalledAt(l, r, es, 1);
    OthersAreEmpty(l, r, es);
  }

  lemma OthersAreEmpty(l: Link, r: Record, es: seq<Entry>)
    requires |es| == 2 && es[0].address == 1 && es[1].address == 2 && Describes(r, es)
    requires l.life.Alive? && l.worker.Legacy? && |l.table| == 14 && Placeable(es, 7)
    ensures var t := Install(l, r).table;
      |t| == 14 && forall k :: 0 <= k < 14 && k != 0 && k != 2 ==> t[k].fd.None?
  {
    InstalledTable(l, r, es);
    var t := Install(l, r).table;
    forall k | 0 <= k < 14 && k != 0 && k != 2 ensures t[k].fd.None? {
      OtherSlotsAreEmpty(t, es, k);
    }
  }

  lemma InstallKeepsShape(l: Link, r: Record)
    requires l.life.Alive? && !Install(l, r).life.Exited?
    ensures var m := Install(l, r);
      m.life.Alive? && m.worker == l.worker && !m.enabled && |m.table| == |l.table| && m.generation == r.generation
  {}

  lemma StartedTwo()
    ensures var d := Started([Endpoints()]); TwoOutEndpoints(d) && !d.link.enabled && Kept(d)
  {
    var r := Reset(Boot().link, false);
    var asked := SendConfiguration(r);
    InstallsTwoOut(Heard(asked, Endpoints()), Endpoints(), TwoEntries());
    QuiescedEndpoints(asked, 1, false, [Endpoints()]);
    FirstInit([Endpoints()]);
  }

  /** The OUT endpoints are served. */
  ghost predicate BothServed(d: Driver) {
    TwoOutEndpoints(d) && Kept(d) && d.link.enabled && d.link.table[0].running && d.link.table[2].running
  }

  lemma EnableServesBoth(d: Driver)
    requires TwoOutEndpoints(d) && Kept(d) && !d.link.enabled
    ensures var e := Step(d, Passing(Bus(2)));
      && BothServed(e) && e.link.table[0] == StartSlot(Legacy, 0, d.link.table[0])
      && e.link.table[2] == StartSlot(Legacy, 2, d.link.table[2])
  {
    var heard := Heard(d.link, Bus(2));
    PassWithoutHits(d, Some(Bus(2)), Answer(false, []));
    StepGoes(d, Passing(Bus(2)));
    assert SetUp(heard, []) == heard;
    assert Startable(Legacy, 0, heard.table[0]) && Startable(Legacy, 2, heard.table[2]);
    assert RuntimeRecord(d, Bus(2), Answer(false, [])).link == StartThreads(heard).(enabled := true);
  }

  lemma DroppedTwo(d: Driver)
    requires BothServed(d)
    ensures var e := Step(d, Happens(Disconnects));
      TwoOutEndpoints(e) && Kept(e) && !e.link.enabled && e.link.table == d.link.table
  {
    StepGoes(d, Happens(Disconnects));
  }

  /** Both OUT endpoints have just been started. */
  lemma ServedRun() returns (d: Driver)
    ensures Reachable(d) && BothServed(d)
    ensures forall k :: k == 0 || k == 2 ==>
      !d.link.table[k].occupied && d.link.table[k].count == 0 && !d.link.table[k].threads.pending
  {
    var d0 := Started([Endpoints()]);
    BeginsReachable([Endpoints()]);
    StartedTwo();
    EnableServesBoth(d0);
    d := Step(d0, Passing(Bus(2)));
    StaysReachable(d0, Passing(Bus(2)));
    assert SlotOk(0, d0.link.table[0], false) && SlotOk(2, d0.link.table[2], false);
  }

  lemma DropThenEnableStartsOver(d: Driver)
    requires BothServed(d)
    ensures var e := Step(Step(d, Happens(Disconnects)), Passing(Bus(2)));
      BothServed(e) && EverStartedOver(e.link.log, 0)
  {
    DroppedTwo(d);
    var e := Step(d, Happens(Disconnects));
    EnableServesBoth(e);
    PassWithoutHits(e, Some(Bus(2)), Answer(false, []));
    LingeringEnableStartsOver(e, Bus(2), Answer(false, []), 0);
  }

  /** Two OUT endpoints, ENABLE, a lost IN transfer, ENABLE, QUIESCE: a file is
      closed under the helper of the first ENABLE. */
  lemma LostTransferClosesUnderHelper()
    ensures exists d :: Reachable(d) && d.link.life.Alive? && ClosesUnderHelper(d.link.log, 0)
  {
    var d1 := ServedRun();
    DropThenEnableStartsOver(d1);
    var d2 := Step(d1, Happens(Disconnects));
    var d3 := Step(d2, Passing(Bus(2)));
    StaysReachable(d1, Happens(Disconnects));
    StaysReachable(d2, Passing(Bus(2)));
    var quiesce := Record(KIND_QUIESCE, 9, 0, [], []);
    PassWithoutHits(d3, Some(quiesce), Answer(false, []));
    QuiesceClosesUnderHelper(d3, quiesce, Answer(false, []), 0);
    StaysReachable(d3, Passing(quiesce));
    assert Step(d3, Passing(quiesce)).link.life.Alive?;
  }

  function Storing(k: nat, orphan: bool): Action {
    Happens(Stores(k, orphan, false))
  }

  function Notifying(k: nat, orphan: bool): Action {
    Happens(Notifies(k, orphan))
  }

  lemma StoredTwo(d: Driver, k: nat)
    requires BothServed(d) && (k == 0 || k == 2) && !d.link.table[k].occupied && !d.link.table[k].threads.pending
    ensures var e := Step(d, Storing(k, false));
      && BothServed(e) && e.link.table[k] == Stored(d.link.table[k], false)
      && forall j :: 0 <= j < 14 && j != k ==> e.link.table[j] == d.link.table[j]
  {
    assert SlotOk(k, d.link.table[k], true);
    StepGoes(d, Storing(k, false));
  }

  lemma NotifiedTwo(d: Driver, k: nat, orphan: bool)
    requires BothServed(d) && (k == 0 || k == 2) && CanNotify(d.link.table[k], orphan)
    ensures var e := Step(d, Notifying(k, orphan));
      && BothServed(e) && e.link.table[k] == Notified(d.link.table[k], orphan)
      && forall j :: 0 <= j < 14 && j != k ==> e.link.table[j] == d.link.table[j]
  {
    assert SlotOk(k, d.link.table[k], true);
    StepGoes(d, Notifying(k, orphan));
  }

  /** A helper stores a packet and announces it. */
  lemma PublishedTwo(d: Driver, k: nat) returns (e: Driver)
    requires Reachable(d) && BothServed(d) && (k == 0 || k == 2)
    requires !d.link.table[k].occupied && !d.link.table[k].threads.pending
    ensures Reachable(e) && BothServed(e)
    ensures e.link.table[k] == Notified(Stored(d.link.table[k], false), false)
    ensures forall j :: 0 <= j < 14 && j != k ==> e.link.table[j] == d.link.table[j]
  {
    StoredTwo(d, k);
    var f := Step(d, Storing(k, false));
    StaysReachable(d, Storing(k, false));
    NotifiedTwo(f, k, false);
    e := Step(f, Notifying(k, false));
    StaysReachable(f, Notifying(k, false));
  }

  /** Both endpoints receive a packet, and the first callback polls. */
  lemma NestedPassRun()
    ensures exists d, hits ::
      && Reachable(d) && d.link.life.Alive? && Pollable(d.link.enabled, d.link.table, hits)
      && ReadsStale(d, hits) && Drain(d, hits).link.life.Exited?
  {
    var d1 := ServedRun();
    var d2 := PublishedTwo(d1, 0);
    var d3 := PublishedTwo(d2, 2);
    NestedPassSteals(d3, 0, 2);
    var hits := [Hit(0, [Steals(2)]), Hit(2, [])];
    assert Pollable(d3.link.enabled, d3.link.table, hits);
  }

  /** A packet is stored, the bus is dropped and enabled again before its notification is
      written; then that comes late, and the notification of the next packet is the second
      one in the new eventfd. */
  lemma LateNotificationRun()
    ensures exists d, hits ::
      && Reachable(d) && d.link.life.Alive? && Pollable(d.link.enabled, d.link.table, hits) && NoneReenters(hits)
      && ReadsStale(d, hits) && Drain(d, hits).link.life.Exited?
  {
    var d1 := ServedRun();
    StoredTwo(d1, 0);
    var d2 := Step(d1, Storing(0, false));
    StaysReachable(d1, Storing(0, false));
    DroppedTwo(d2);
    var d3 := Step(d2, Happens(Disconnects));
    StaysReachable(d2, Happens(Disconnects));
    EnableServesBoth(d3);
    var d4 := Step(d3, Passing(Bus(2)));
    StaysReachable(d3, Passing(Bus(2)));
    assert SlotOk(0, d3.link.table[0], false);
    NotifiedTwo(d4, 0, true);
    var d5 := Step(d4, Notifying(0, true));
    StaysReachable(d4, Notifying(0, true));
    var d6 := PublishedTwo(d5, 0);
    assert d6.link.table[0].count == 2;
    var hits := [Hit(0, [])];
    assert Pollable(d6.link.enabled, d6.link.table, hits) && ReadsStale(d6, hits);
    StaleReadExits(d6, hits);
  }
}
