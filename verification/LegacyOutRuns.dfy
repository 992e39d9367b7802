/** Runs of the legacy OUT endpoint that end badly, one for each hypothesis of
    `LegacyOut.PoliteHandoff`. */
module LegacyOutRuns {
  import opened Common
  import opened LegacyOut

  /** A script of actions. */
  datatype Trace = Do(a: Action) | Then(first: Trace, next: Trace)

  function Actions(t: Trace): seq<Action> {
    match t
    case Do(a) => [a]
    case Then(x, y) => Actions(x) + Actions(y)
  }

  function Exec(s: State, t: Trace): State
    decreases t
  {
    match t
    case Do(a) => Step(s, a)
    case Then(x, y) => Exec(Exec(s, x), y)
  }

  lemma {:induction false} RunParts(s: State, front: seq<Action>, back: seq<Action>)
    ensures Run(s, front + back) == Run(Run(s, front), back)
    decreases |front|
  {
    if front == [] {
      assert front + back == back;
    } else {
      assert (front + back)[1..] == front[1..] + back;
      RunParts(Step(s, front[0]), front[1..], back);
    }
  }

  /** Executing a script is the run of its actions. */
  lemma {:induction false} ExecIsRun(s: State, t: Trace)
    ensures Exec(s, t) == Run(s, Actions(t))
    decreases t
  {
    match t
    case Do(a) =>
      assert Run(Step(s, a), [a][1..]) == Step(s, a);
    case Then(x, y) =>
      ExecIsRun(s, x);
      ExecIsRun(Exec(s, x), y);
      RunParts(s, Actions(x), Actions(y));
  }

  function Times(n: nat, a: Action): Trace {
    if n <= 1 then Do(a) else Then(Do(a), Times(n - 1, a))
  }

  lemma ExecTimes(s: State, n: nat, a: Action)
    requires n > 1
    ensures Exec(s, Times(n, a)) == Exec(Step(s, a), Times(n - 1, a))
  {
    assert Exec(s, Do(a)) == Step(s, a);
  }

  /** The helper receives an empty packet and announces it. */
  function PublishEmpty(): Trace {
    Then(Then(Do(HelperStep), Do(HostPacket([]))), Then(Times(4, HelperStep), Times(3, HelperStep)))
  }

  lemma ReceiveEmpty(s: State)
    requires s.status.Running? && s.helper.EnterRead? && !s.cancel && Readable(s)
    ensures Exec(s, Then(Do(HelperStep), Do(HostPacket([]))))
         == s.(helper := WantLock([]), hist := s.hist.(fromHost := s.hist.fromHost + [[]]))
  {
    var s1 := s.(helper := InRead(s.source.serial));
    assert Exec(s, Do(HelperStep)) == s1;
    assert [] + s.source.data.value[0..] == s.source.data.value;
    assert KernelActs(s1, HostPacket([])) == Deliver(s1, []);
  }

  lemma StoreEmpty(s: State)
    requires s.status.Running? && s.helper == WantLock([]) && s.mutex.Free? && !s.slot.occupied
    ensures Exec(s, Times(4, HelperStep))
         == s.(helper := SetOccupied([]), mutex := Helper, slot := s.slot.(length := 0))
  {
    ExecTimes(s, 4, HelperStep);
    var s1 := s.(helper := TestSlot([]), mutex := Helper);
    assert Step(s, HelperStep) == s1;
    ExecTimes(s1, 3, HelperStep);
    CopyEmpty(s1.(helper := Copying([], 0)));
  }

  lemma CopyEmpty(s: State)
    requires s.status.Running? && s.helper == Copying([], 0)
    ensures Exec(s, Times(2, HelperStep)) == s.(helper := SetOccupied([]), slot := s.slot.(length := 0))
  {
    ExecTimes(s, 2, HelperStep);
    assert Step(s, HelperStep) == s.(helper := SetLength([]));
  }

  lemma AnnounceStored(s: State)
    requires s.status.Running? && s.helper.SetOccupied? && !s.cancel && s.event.Some? && s.event.value < EVENTFD_MAX
    ensures Exec(s, Times(3, HelperStep)) == s.(helper := EnterRead, mutex := Free,
                                                slot := s.slot.(occupied := true), event := Some(s.event.value + 1))
  {
    ExecTimes(s, 3, HelperStep);
    var s1 := s.(helper := Unlocking, slot := s.slot.(occupied := true));
    assert Step(s, HelperStep) == s1;
    ReleaseAndNotify(s1);
  }

  lemma ExecTwo(s: State, a: Action, t: State, u: State)
    requires Step(s, a) == t && Step(t, a) == u
    ensures Exec(s, Times(2, a)) == u
  {
    assert Exec(s, Do(a)) == t && Exec(t, Times(1, a)) == u;
  }

  lemma ReleaseAndNotify(s: State)
    requires s.status.Running? && s.helper.Unlocking? && !s.cancel && s.event.Some? && s.event.value < EVENTFD_MAX
    ensures Exec(s, Times(2, HelperStep)) == s.(helper := EnterRead, mutex := Free, event := Some(s.event.value + 1))
  {
    ExecTwo(s, HelperStep, s.(helper := Notify, mutex := Free),
            s.(helper := EnterRead, mutex := Free, event := Some(s.event.value + 1)));
  }

  /** There is a live read_data. */
  predicate Readable(s: State) {
    s.source.serial > 0 && s.source.data.Some? && |s.source.data.value| == s.max
  }

  /** The helper is between packets and no one holds the lock. */
  predicate Quiet(s: State) {
    s.status.Running? && s.helper.EnterRead? && s.core.Idle? && !s.cancel && s.mutex.Free? && s.slot.buffer.Some?
    && s.event.Some? && s.enabled && Readable(s)
  }

  lemma PublishEmptyResult(s: State)
    requires Quiet(s) && !s.slot.occupied && s.event.value < EVENTFD_MAX
    ensures var t := Exec(s, PublishEmpty());
      Quiet(t) && t.slot.occupied && t.slot.length == 0 && t.event == Some(s.event.value + 1)
  {
    PublishEmptyExactly(s, s.(slot := s.slot.(length := 0, occupied := true), event := Some(s.event.value + 1),
                              hist := s.hist.(fromHost := s.hist.fromHost + [[]])));
  }

  lemma PublishEmptyExactly(s: State, t: State)
    requires Quiet(s) && !s.slot.occupied && s.event.value < EVENTFD_MAX
    requires t == s.(slot := s.slot.(length := 0, occupied := true), event := Some(s.event.value + 1),
                     hist := s.hist.(fromHost := s.hist.fromHost + [[]]))
    ensures Exec(s, PublishEmpty()) == t
  {
    ReceiveEmpty(s);
    var s1 := s.(helper := WantLock([]), hist := s.hist.(fromHost := s.hist.fromHost + [[]]));
    ExecThen(s, Then(Do(HelperStep), Do(HostPacket([]))), s1, Then(Times(4, HelperStep), Times(3, HelperStep)));
    StoreEmpty(s1);
    var s2 := s1.(helper := SetOccupied([]), mutex := Helper, slot := s.slot.(length := 0));
    ExecThen(s1, Times(4, HelperStep), s2, Times(3, HelperStep));
    AnnounceStored(s2);
  }

  lemma ExecThen(s: State, x: Trace, t: State, y: Trace)
    requires Exec(s, x) == t
    ensures Exec(s, Then(x, y)) == Exec(t, y)
  {}

  /** Firmware reads an empty packet outside any callback. */
  function ReadEarly(): Trace {
    Then(Do(ExtraRead(0)), Times(5, CoreStep))
  }

  lemma ReadEarlyResult(s: State)
    requires Quiet(s) && s.slot.occupied && s.slot.length == 0
    ensures var t := Exec(s, ReadEarly()); Quiet(t) && !t.slot.occupied && t.event == s.event
  {
    var s1 := s.(core := ReadLock(0));
    assert Exec(s, Do(ExtraRead(0))) == s1;
    ReadEmpty(s1);
  }

  lemma ReadEmpty(s: State)
    requires s.status.Running? && s.core == ReadLock(0) && s.mutex.Free? && s.slot.occupied && s.slot.length == 0
    ensures var t := Exec(s, Times(5, CoreStep));
      t == s.(core := Idle, slot := s.slot.(occupied := false), hist := t.hist)
  {
    ExecTimes(s, 5, CoreStep);
    var s1 := s.(core := ReadTest(0), mutex := Core);
    assert Step(s, CoreStep) == s1;
    ExecTimes(s1, 4, CoreStep);
    var s2 := s1.(core := ReadCopy(0, []));
    assert Step(s1, CoreStep) == s2;
    FinishEmptyRead(s2);
  }

  lemma FinishEmptyRead(s: State)
    requires s.status.Running? && s.core == ReadCopy(0, []) && s.slot.length == 0
    ensures var t := Exec(s, Times(3, CoreStep));
      t == s.(core := Idle, mutex := Free, slot := s.slot.(occupied := false), hist := t.hist)
  {
    ExecTimes(s, 3, CoreStep);
    var s1 := s.(core := ReadClear([]));
    assert Step(s, CoreStep) == s1;
    ExecTimes(s1, 2, CoreStep);
  }

  lemma ServeStale(s: State)
    requires Quiet(s) && s.event.value > 1
    ensures Exec(s, Then(Do(Poll), Do(CoreStep))).cause.BadNotification?
  {
    assert Exec(s, Do(Poll)) == s.(core := Polled(true));
  }

  function EarlyReadTrace(): Trace {
    Then(PublishEmpty(), Then(ReadEarly(), Then(PublishEmpty(), Then(Do(Poll), Do(CoreStep)))))
  }

  /** Whenever firmware reads a packet before its notification is served, the
      notification of the next packet reads 2 and the process ends although no packet
      was overrun: here from the moment an endpoint has started. */
  lemma EarlyReadBreaksNotification(s: State)
    requires Quiet(s) && !s.slot.occupied && s.event == Some(0)
    ensures Exec(s, EarlyReadTrace()).cause.BadNotification?
  {
    PublishEmptyResult(s);
    var s1 := Exec(s, PublishEmpty());
    ReadEarlyResult(s1);
    var s2 := Exec(s1, ReadEarly());
    PublishEmptyResult(s2);
    ServeStale(Exec(s2, PublishEmpty()));
  }

  /** Such a state is where every activation begins. */
  lemma StartIsQuiet(max: nat, garbage: seq<byte>, stale: seq<byte>)
    requires |garbage| == max == |stale|
    ensures var s := Exec(Init(max), Do(Start(garbage, stale))); Quiet(s) && !s.slot.occupied && s.event == Some(0)
  {
    assert Step(Init(max), Start(garbage, stale)) == CoreBegins(Init(max), Start(garbage, stale));
  }

  /** The callback returns without reading; the helper goes on to the host's next packet. */
  function SkippedRead(p: Packet): Trace {
    Then(Do(SkipRead), Then(Do(HelperStep), Then(Do(HostPacket(p)), Times(2, HelperStep))))
  }

  /** A callback that returns without reading leaves the slot full for good: whatever
      packet comes next, the helper ends the process. */
  lemma SkippedReadOverruns(s: State, p: Packet)
    requires Inv(s) && s.status.Running? && s.core.Callback? && s.helper.EnterRead? && |p| <= s.max
    ensures Exec(s, SkippedRead(p)).cause.Overrun?
  {
    assert s.slot.occupied && !s.cancel;
    assert Exec(s, Do(SkipRead)) == s.(core := Idle);
    NextPacketOverruns(s.(core := Idle), p);
  }

  lemma NextPacketOverruns(s: State, p: Packet)
    requires s.status.Running? && s.helper.EnterRead? && !s.cancel && s.mutex.Free? && s.slot.occupied
    requires Readable(s) && |p| <= s.max
    ensures Exec(s, Then(Do(HelperStep), Then(Do(HostPacket(p)), Times(2, HelperStep)))).cause.Overrun?
  {
    var s1 := s.(helper := InRead(s.source.serial));
    assert Exec(s, Do(HelperStep)) == s1;
    OverrunFollows(Exec(s1, Do(HostPacket(p))));
  }

  lemma OverrunFollows(s: State)
    requires s.status.Running? && s.helper.WantLock? && s.mutex.Free? && s.slot.occupied
    ensures Exec(s, Times(2, HelperStep)).cause.Overrun?
  {
    ExecTimes(s, 2, HelperStep);
    var s1 := s.(helper := TestSlot(s.helper.p), mutex := Helper);
    assert Step(s, HelperStep) == s1;
    assert Exec(s1, Times(1, HelperStep)) == Step(s1, HelperStep);
  }

  /** A nested pass serves this endpoint before the outer loop gets to it. */
  function NestedServe(): Trace {
    Then(PollTwice(), Then(Then(Do(Serve(0)), Times(5, CoreStep)), Then(Do(Return), Do(CoreStep))))
  }

  function PollTwice(): Trace {
    Then(Then(Do(Poll), Do(ReenterBefore)), Then(Do(Poll), Do(CoreStep)))
  }

  lemma PollNested(s: State)
    requires Quiet(s) && s.event == Some(1)
    ensures Exec(s, PollTwice()) == s.(core := Callback, outer := s.outer + [BeforeRead], event := Some(0))
  {
    var s1 := s.(outer := s.outer + [BeforeRead]);
    assert Exec(s, Do(Poll)) == s.(core := Polled(true));
    assert Exec(s, Then(Do(Poll), Do(ReenterBefore))) == s1;
    assert Exec(s1, Do(Poll)) == s1.(core := Polled(true));
  }

  lemma ServeEmpty(s: State)
    requires s.status.Running? && s.core.Callback? && s.enabled && s.mutex.Free?
    requires s.slot.occupied && s.slot.length == 0
    ensures var t := Exec(s, Then(Do(Serve(0)), Times(5, CoreStep)));
      t == s.(core := Idle, slot := s.slot.(occupied := false), hist := t.hist)
  {
    var s1 := s.(core := ReadLock(0));
    assert Exec(s, Do(Serve(0))) == s1;
    ReadEmpty(s1);
  }

  lemma ResumeAndDie(s: State)
    requires s.status.Running? && s.core.Idle? && s.outer != [] && s.outer[|s.outer| - 1].BeforeRead? && s.enabled
    requires s.event == Some(0)
    ensures Exec(s, Then(Do(Return), Do(CoreStep))).cause.BadNotification?
  {
    assert Exec(s, Do(Return)) == Resume(s);
  }

  /** With a packet waiting, a callback of another endpoint that polls lets a nested pass
      serve it; when the outer loop comes to this endpoint its eventfd is empty, which
      ends the process although every packet was read exactly once. */
  lemma NestedServeBreaksNotification(s: State)
    requires Quiet(s) && s.event == Some(1) && s.slot.occupied && s.slot.length == 0
    ensures Exec(s, NestedServe()).cause.BadNotification? && Polite(Actions(NestedServe()))
  {
    PollNested(s);
    var s1 := s.(core := Callback, outer := s.outer + [BeforeRead], event := Some(0));
    ServeEmpty(s1);
    ResumeAndDie(Exec(s1, Then(Do(Serve(0)), Times(5, CoreStep))));
    NestedServeIsPolite();
  }

  lemma NestedServeIsPolite()
    ensures Polite(Actions(NestedServe()))
  {
    StepsArePolite(5);
    assert Actions(Do(Serve(0))) == [Serve(0)] && Actions(Do(Return)) == [Return];
  }

  lemma {:induction false} StepsArePolite(n: nat)
    ensures Polite(Actions(Times(n, CoreStep)))
  {
    if n > 1 {
      StepsArePolite(n - 1);
    }
  }

  // ---------------------------------------------------- runs given step by step

  /** A polite action with no nested pass, except that `unread` allows a callback that
      polls before it reads. */
  predicate Allowed(a: Action, unread: bool) {
    (PoliteAction(a) || (unread && a.ReenterUnread?)) && !a.ReenterBefore?
  }

  predicate AllAllowed(actions: seq<Action>, unread: bool) {
    forall i :: 0 <= i < |actions| ==> Allowed(actions[i], unread)
  }

  /** Some such run leads from s to t. */
  ghost predicate Leads(s: State, t: State, unread: bool) {
    exists actions :: AllAllowed(actions, unread) && Run(s, actions) == t
  }

  lemma LeadsBy(s: State, script: Trace, unread: bool)
    requires AllAllowed(Actions(script), unread)
    ensures Leads(s, Exec(s, script), unread)
  {
    ExecIsRun(s, script);
  }

  lemma LeadsStep(s: State, a: Action, t: State, unread: bool)
    requires Allowed(a, unread) && Step(s, a) == t
    ensures Leads(s, t, unread)
  {
    LeadsBy(s, Do(a), unread);
  }

  lemma LeadsTrans(s: State, t: State, u: State, unread: bool)
    requires Leads(s, t, unread) && Leads(t, u, unread)
    ensures Leads(s, u, unread)
  {
    var front :| AllAllowed(front, unread) && Run(s, front) == t;
    var back :| AllAllowed(back, unread) && Run(t, back) == u;
    RunParts(s, front, back);
    assert AllAllowed(front + back, unread);
  }

  /** One more step. */
  lemma LeadsOn(s: State, t: State, a: Action, u: State, unread: bool)
    requires Leads(s, t, unread) && Allowed(a, unread) && Step(t, a) == u
    ensures Leads(s, u, unread)
  {
    LeadsStep(t, a, u, unread);
    LeadsTrans(s, t, u, unread);
  }

  lemma {:induction false} TimesAllowed(n: nat, a: Action, unread: bool)
    requires Allowed(a, unread)
    ensures AllAllowed(Actions(Times(n, a)), unread)
  {
    if n > 1 {
      TimesAllowed(n - 1, a, unread);
    }
  }

  /** The helper publishes an empty packet. */
  lemma LeadsToPublished(s: State, unread: bool) returns (t: State)
    requires Quiet(s) && !s.slot.occupied && s.event.value < EVENTFD_MAX
    ensures Leads(s, t, unread) && Quiet(t) && t.slot.occupied && t.slot.length == 0
    ensures t.event == Some(s.event.value + 1) && t.outer == s.outer
  {
    t := PublishEmptyTo(s);
    PublishIsAllowed(unread);
    LeadsBy(s, PublishEmpty(), unread);
  }

  lemma PublishEmptyTo(s: State) returns (t: State)
    requires Quiet(s) && !s.slot.occupied && s.event.value < EVENTFD_MAX
    ensures t == Exec(s, PublishEmpty()) && Quiet(t) && t.slot.occupied && t.slot.length == 0
    ensures t.event == Some(s.event.value + 1) && t.outer == s.outer
  {
    PublishEmptyResult(s);
    t := Exec(s, PublishEmpty());
  }

  lemma PublishIsAllowed(unread: bool)
    ensures AllAllowed(Actions(PublishEmpty()), unread)
  {
    TimesAllowed(4, HelperStep, unread);
    TimesAllowed(3, HelperStep, unread);
  }

  /** The notification of that packet is read although another one is pending. */
  lemma LeadsToDeath(s: State, unread: bool) returns (t: State)
    requires Quiet(s) && s.event.value > 1
    ensures Leads(s, t, unread) && t.cause.BadNotification?
  {
    ServeStale(s);
    LeadsBy(s, Then(Do(Poll), Do(CoreStep)), unread);
    t := Exec(s, Then(Do(Poll), Do(CoreStep)));
  }

  // ------------------------------------- a callback that polls before it reads

  lemma LeadsToUnread(s: State) returns (t: State)
    requires Quiet(s) && s.event == Some(1)
    ensures Leads(s, t, true) && t == s.(outer := s.outer + [InCallback], event := Some(0))
  {
    var s1 := s.(core := Polled(true));
    var s2 := s.(core := Callback, event := Some(0));
    t := s.(outer := s.outer + [InCallback], event := Some(0));
    LeadsStep(s, Poll, s1, true);
    LeadsOn(s, s1, CoreStep, s2, true);
    LeadsOn(s, s2, ReenterUnread, t, true);
  }

  /** A nested pass handles DISABLE: the helper is joined and everything freed. */
  lemma LeadsToStopped(s: State) returns (t: State)
    requires Quiet(s)
    ensures Leads(s, t, true) && t.status.Running? && t.core.Idle? && t.helper.Absent? && !t.cancel && t.mutex.Free?
    ensures !t.enabled && t.outer == s.outer && t.max == s.max
  {
    var joined := LeadsToJoined(s);
    var s5 := joined.(core := StopFree, event := None);
    LeadsOn(s, joined, CoreStep, s5, true);
    var s6 := TearDown(s5);
    LeadsOn(s, s5, CoreStep, s6, true);
    t := TearDown(s6);
    LeadsOn(s, s6, CoreStep, t, true);
  }

  lemma LeadsToJoined(s: State) returns (t: State)
    requires Quiet(s)
    ensures Leads(s, t, true) && t == s.(core := StopCloseEvent, helper := Absent, enabled := false)
  {
    var s1 := s.(core := StopCancel, enabled := false);
    var s2 := s1.(core := StopJoin, cancel := true);
    var s3 := s2.(helper := Finished);
    t := s3.(core := StopCloseEvent, helper := Absent, cancel := false);
    LeadsStep(s, Stop, s1, true);
    LeadsOn(s, s1, CoreStep, s2, true);
    LeadsOn(s, s2, HelperStep, s3, true);
    LeadsOn(s, s3, CoreStep, t, true);
  }

  lemma LeadsToStarted(s: State, garbage: seq<byte>, stale: seq<byte>) returns (t: State)
    requires s.status.Running? && s.core.Idle? && s.helper.Absent? && !s.cancel && s.mutex.Free? && !s.enabled
    requires |garbage| == s.max == |stale|
    ensures Leads(s, t, true) && Quiet(t) && !t.slot.occupied && t.event == Some(0) && t.outer == s.outer
  {
    t := CoreBegins(s, Start(garbage, stale));
    LeadsStep(s, Start(garbage, stale), t, true);
  }

  /** The outer callback goes on and reads what is in the slot by now. */
  lemma LeadsToTaken(s: State) returns (t: State)
    requires Quiet(s) && s.outer != [] && s.outer[|s.outer| - 1].InCallback? && s.slot.occupied && s.slot.length == 0
    ensures Leads(s, t, true) && Quiet(t) && !t.slot.occupied && t.event == s.event
  {
    LeadsStep(s, Return, Resume(s), true);
    var read := Then(Do(Serve(0)), Times(5, CoreStep));
    TimesAllowed(5, CoreStep, true);
    ServeEmpty(Resume(s));
    LeadsBy(Resume(s), read, true);
    t := Exec(Resume(s), read);
    LeadsTrans(s, Resume(s), t, true);
  }

  /** From any state with a packet waiting: the callback polls before it reads, nested
      passes handle DISABLE and ENABLE, the next packet arrives, and the callback takes
      that one before its notification is read. The packet after it makes that 2. */
  lemma UnreadReentryBreaksNotification(s: State, garbage: seq<byte>, stale: seq<byte>)
    requires Quiet(s) && s.event == Some(1) && |garbage| == s.max == |stale|
    ensures exists t :: Leads(s, t, true) && t.cause.BadNotification?
  {
    var s1 := LeadsToUnread(s);
    var s2 := LeadsToStopped(s1);
    LeadsTrans(s, s1, s2, true);
    var s3 := LeadsToStarted(s2, garbage, stale);
    LeadsTrans(s, s2, s3, true);
    var s4 := LeadsToPublished(s3, true);
    LeadsTrans(s, s3, s4, true);
    var s5 := LeadsToTaken(s4);
    LeadsTrans(s, s4, s5, true);
    var s6 := LeadsToPublished(s5, true);
    LeadsTrans(s, s5, s6, true);
    var t := LeadsToDeath(s6, true);
    LeadsTrans(s, s6, t, true);
  }

  // ------------------------------------------ starting a helper over another

  /** Between operations of Core, with a helper running. */
  predicate Serving(s: State) {
    s.status.Running? && s.core.Idle? && s.enabled && !s.helper.Absent? && !s.cancel && s.mutex.Free?
  }

  function Restarted(s: State, garbage: seq<byte>, stale: seq<byte>): State {
    s.(helper := EnterRead, older := s.older + [s.helper], slot := Slot(Some(garbage), 0, false),
       source := Source(s.source.serial + 1, Some(stale)), event := Some(0), hist := History([], [], []))
  }

  /** The bus is no longer enabled, and ENABLE comes before anything that stops helpers. */
  lemma LeadsToRestarted(s: State, garbage: seq<byte>, stale: seq<byte>)
    requires Serving(s) && |garbage| == s.max == |stale|
    ensures Leads(s, Restarted(s, garbage, stale), false)
    ensures !Clean(Step(s, DropEnabled), Start(garbage, stale))
  {
    var s1 := s.(enabled := false);
    LeadsStep(s, DropEnabled, s1, false);
    LeadsOn(s, s1, Start(garbage, stale), Restarted(s, garbage, stale), false);
  }

  lemma OlderStep(s: State, i: nat, a: Action, h: HelperPc, t: State)
    requires s.status.Running? && i < |s.older|
    requires HelperActs(s.(helper := s.older[i], cancel := false), a)
          == t.(helper := h, cancel := false, older := s.older)
    requires t.helper == s.helper && t.cancel == s.cancel && t.older == s.older[i := h]
    ensures Step(s, Overwritten(i, a)) == t
  {}

  /** The older helper had stored its packet and not yet written the eventfd: it writes 1
      to the new eventfd for a slot that the start has emptied. The next packet makes that
      2, and the process ends although firmware is polite. */
  lemma LateNotificationBreaks(s: State, garbage: seq<byte>, stale: seq<byte>)
    requires Serving(s) && s.helper.Notify? && |garbage| == s.max == |stale|
    ensures exists t :: Leads(s, t, false) && t.cause.BadNotification?
  {
    LeadsToRestarted(s, garbage, stale);
    var s1 := Restarted(s, garbage, stale);
    var s2 := s1.(older := s1.older[|s.older| := EnterRead], event := Some(1));
    OlderStep(s1, |s.older|, HelperStep, EnterRead, s2);
    LeadsOn(s, s1, Overwritten(|s.older|, HelperStep), s2, false);
    var s3 := LeadsToPublished(s2, false);
    LeadsTrans(s, s2, s3, false);
    var t := LeadsToDeath(s3, false);
    LeadsTrans(s, s3, t, false);
  }

  /** The older helper's own steps from the packet it has read to its notification. It
      copies from the read_data of now, which is not the one it read into. */
  lemma LeadsToWrongBytes(s: State, i: nat, x: byte) returns (t: State)
    requires s.status.Running? && i < |s.older| && s.older[i] == WantLock([x]) && s.mutex.Free? && !s.slot.occupied
    requires s.slot.buffer.Some? && |s.slot.buffer.value| > 0 && s.source.data.Some? && |s.source.data.value| > 0
    requires s.event == Some(0)
    ensures Leads(s, t, false)
    ensures t == s.(older := t.older, event := Some(1),
                    slot := Slot(Some(s.slot.buffer.value[0 := s.source.data.value[0]]), 1, true))
  {
    var slot := s.slot.(buffer := Some(s.slot.buffer.value[0 := s.source.data.value[0]]));
    var s1 := At(s, i, TestSlot([x]), Helper, s.slot);
    var s2 := At(s, i, Copying([x], 0), Helper, s.slot);
    var s3 := At(s, i, Copying([x], 1), Helper, slot);
    var s4 := At(s, i, SetLength([x]), Helper, slot);
    OlderAt(s, s, i, WantLock([x]), s1);
    OlderAt(s, s1, i, TestSlot([x]), s2);
    LeadsTrans(s, s1, s2, false);
    OlderAt(s, s2, i, Copying([x], 0), s3);
    LeadsTrans(s, s2, s3, false);
    OlderAt(s, s3, i, Copying([x], 1), s4);
    LeadsTrans(s, s3, s4, false);
    t := LeadsToLatePublication(s, s4, i, x);
    LeadsTrans(s, s4, t, false);
  }

  lemma LeadsToLatePublication(s: State, s4: State, i: nat, x: byte) returns (t: State)
    requires s.status.Running? && i < |s.older| && s.event == Some(0)
    requires s4 == At(s, i, SetLength([x]), Helper, s4.slot) && !s4.slot.occupied
    ensures Leads(s4, t, false)
    ensures t == s.(older := t.older, mutex := Free, event := Some(1), slot := Slot(s4.slot.buffer, 1, true))
  {
    var s5 := At(s, i, SetOccupied([x]), Helper, s4.slot.(length := 1));
    var s6 := At(s, i, Unlocking, Helper, Slot(s4.slot.buffer, 1, true));
    OlderAt(s, s4, i, SetLength([x]), s5);
    OlderAt(s, s5, i, SetOccupied([x]), s6);
    LeadsTrans(s4, s5, s6, false);
    t := LeadsToLateNotification(s, s6, i);
    LeadsTrans(s4, s6, t, false);
  }

  lemma LeadsToLateNotification(s: State, s6: State, i: nat) returns (t: State)
    requires s.status.Running? && i < |s.older| && s.event == Some(0) && s6 == At(s, i, Unlocking, Helper, s6.slot)
    ensures Leads(s6, t, false) && t == s.(older := t.older, mutex := Free, event := Some(1), slot := s6.slot)
  {
    var s7 := At(s, i, Notify, Free, s6.slot);
    t := At(s, i, EnterRead, Free, s6.slot).(event := Some(1));
    OlderAt(s, s6, i, Unlocking, s7);
    assert s7.older[i := EnterRead] == t.older;
    OlderStep(s7, i, HelperStep, EnterRead, t);
    LeadsOn(s6, s7, Overwritten(i, HelperStep), t, false);
  }

  /** s with the older helper i at h, and the given lock word and slot. */
  function At(s: State, i: nat, h: HelperPc, mutex: Owner, slot: Slot): State
    requires i < |s.older|
  {
    s.(older := s.older[i := h], mutex := mutex, slot := slot)
  }

  lemma OlderAt(s: State, t: State, i: nat, h: HelperPc, u: State)
    requires i < |s.older| && t == At(s, i, h, t.mutex, t.slot) && t.status.Running?
    requires |u.older| == |s.older| && u == At(s, i, u.older[i], u.mutex, u.slot)
    requires HelperNext(t.(helper := h, cancel := false))
          == t.(helper := u.older[i], cancel := false, mutex := u.mutex, slot := u.slot)
    ensures Leads(t, u, false)
  {
    assert t.older[i := u.older[i]] == u.older;
    OlderStep(t, i, HelperStep, u.older[i], u);
    LeadsStep(t, Overwritten(i, HelperStep), u, false);
  }

  /** Firmware reads a packet of one byte. */
  lemma LeadsToRead(s: State) returns (t: State)
    requires s.status.Running? && s.core.Idle? && s.enabled && s.event == Some(1) && s.mutex.Free?
    requires s.slot.occupied && s.slot.length == 1 && s.slot.buffer.Some? && |s.slot.buffer.value| > 0
    ensures Leads(s, t, false) && t.status.Running?
    ensures t.hist == s.hist.(taken := s.hist.taken + [[s.slot.buffer.value[0]]])
  {
    var s1 := s.(core := Polled(true));
    var s2 := s.(core := Callback, event := Some(0));
    LeadsStep(s, Poll, s1, false);
    LeadsOn(s, s1, CoreStep, s2, false);
    t := LeadsToByte(s2);
    LeadsTrans(s, s2, t, false);
  }

  lemma LeadsToByte(s: State) returns (t: State)
    requires s.status.Running? && s.core.Callback? && s.enabled && s.mutex.Free?
    requires s.slot.occupied && s.slot.length == 1 && s.slot.buffer.Some? && |s.slot.buffer.value| > 0
    ensures Leads(s, t, false) && t.status.Running?
    ensures t.hist == s.hist.(taken := s.hist.taken + [[s.slot.buffer.value[0]]])
  {
    var got := [s.slot.buffer.value[0]];
    assert [] + got == got;
    var s3 := s.(core := ReadLock(1));
    var s4 := s.(core := ReadTest(1), mutex := Core);
    var s5 := s4.(core := ReadCopy(1, []));
    var s6 := s4.(core := ReadCopy(1, got));
    var s7 := s4.(core := ReadClear(got));
    LeadsStep(s, Serve(1), s3, false);
    LeadsOn(s, s3, CoreStep, s4, false);
    LeadsOn(s, s4, CoreStep, s5, false);
    LeadsOn(s, s5, CoreStep, s6, false);
    LeadsOn(s, s6, CoreStep, s7, false);
    t := Consume(s7);
    LeadsOn(s, s7, CoreStep, t, false);
  }

  /** The older helper sits in read, on a buffer that endpoint->read_data no longer names,
      when the packet arrives: firmware gets bytes that the host never sent, without any
      race. */
  lemma WrongBytesDelivered(s: State, x: byte, garbage: seq<byte>, stale: seq<byte>)
    requires Serving(s) && s.helper.InRead? && 0 < s.helper.buf <= s.source.serial
    requires |garbage| == s.max == |stale| && s.max > 0
    ensures exists t :: Leads(s, t, false) && t.status.Running? && t.hist == History([[x]], [[stale[0]]], [])
  {
    var i := |s.older|;
    LeadsToRestarted(s, garbage, stale);
    var s1 := Restarted(s, garbage, stale);
    var s2 := s1.(older := s1.older[i := WantLock([x])], hist := History([[x]], [], []));
    assert [] + [[x]] == [[x]];
    OlderStep(s1, i, HostPacket([x]), WantLock([x]), s2);
    LeadsOn(s, s1, Overwritten(i, HostPacket([x])), s2, false);
    var s3 := LeadsToWrongBytes(s2, i, x);
    LeadsTrans(s, s2, s3, false);
    var t := LeadsToRead(s3);
    LeadsTrans(s, s3, t, false);
    assert [] + [[stale[0]]] == [[stale[0]]];
  }
}
