/** The legacy event loop: when its poll results stay good, what a callback that enters
    the loop again does to them, and how helpers come to be started twice. */
module LegacyLoop {
  import opened Common
  import opened Wire
  import opened Generation
  import opened Ledger
  import opened GenerationFacts
  import opened LegacyUsb
  import opened LegacyFacts

  // ------------------------------------------------------------- poll results

  /** The loop reaches an eventfd that is closed, empty or holds more than 1. */
  predicate ReadsStale(d: Driver, hits: seq<Hit>)
    decreases |hits|
  {
    hits != [] && d.link.enabled && d.link.life.Alive? &&
    (!Fresh(d.link, hits[0].slot) || ReadsStale(AfterHit(d, hits[0]), hits[1..]))
  }

  /** One round of the loop. */
  function AfterHit(d: Driver, hit: Hit): Driver {
    if Fresh(d.link, hit.slot) then Effects(Take(d, hit.slot), hit.effects) else Exit(d)
  }

  lemma {:induction false} StaleReadExits(d: Driver, hits: seq<Hit>)
    requires ReadsStale(d, hits)
    ensures Drain(d, hits).link.life.Exited?
    decreases |hits|
  {
    if Fresh(d.link, hits[0].slot) {
      StaleReadExits(AfterHit(d, hits[0]), hits[1..]);
    }
  }

  predicate Increasing(hits: seq<Hit>) {
    forall i, j :: 0 <= i < j < |hits| ==> hits[i].slot < hits[j].slot
  }

  /** No callback enters the loop again. */
  predicate NoReentry(effects: seq<Effect>) {
    forall i :: 0 <= i < |effects| ==> !effects[i].Reenters?
  }

  predicate NoneReenters(hits: seq<Hit>) {
    forall i :: 0 <= i < |hits| ==> NoReentry(hits[i].effects)
  }

  /** No helper was started over another one on slot k (`LegacyFacts.OrphansExactly`). */
  predicate Sole(l: Link, k: nat) {
    k < |l.table| && l.table[k].threads.orphans == 0
  }

  /** If the bus is still enabled, what was readable is. */
  ghost predicate KeepsFresh(l: Link, m: Link) {
    m.life.Alive? && m.enabled ==>
      l.enabled && |m.table| == |l.table|
      && forall k: nat :: Sole(l, k) && Fresh(l, k) ==> Sole(m, k) && Fresh(m, k)
  }

  lemma EffectKeepsFresh(d: Driver, e: Effect)
    requires Good(d.link) && d.link.life.Alive? && !e.Reenters?
    ensures KeepsFresh(d.link, Apply(d, e).link)
  {
    match e
    case Disconnects =>
    case Reconnects(inbox) => ConfigureIsGood(d.link, true, inbox);
    case Stores(k, _, _) => assert k < |d.link.table| ==> SlotOk(k, d.link.table[k], d.link.enabled);
    case Notifies(k, _) => assert k < |d.link.table| ==> SlotOk(k, d.link.table[k], d.link.enabled);
  }

  lemma {:induction false} EffectsKeepFresh(d: Driver, effects: seq<Effect>)
    requires Good(d.link) && d.link.life.Alive? && NoReentry(effects)
    ensures KeepsFresh(d.link, Effects(d, effects).link)
    decreases |effects|
  {
    if effects != [] {
      EffectKeepsFresh(d, effects[0]);
      EffectGoes(d, effects[0]);
      var e := Apply(d, effects[0]);
      if e.link.life.Alive? {
        EffectsKeepFresh(e, effects[1..]);
      } else {
        assert Effects(e, effects[1..]) == e;
      }
    }
  }

  lemma RecordKeepsFresh(d: Driver, r: Record, answer: Answer)
    requires Good(d.link) && d.link.life.Alive? && d.link.enabled
    ensures KeepsFresh(d.link, RuntimeRecord(d, r, answer).link)
  {
    var heard := Heard(d.link, r);
    SetUpKeepsSlots(heard, answer.setups);
  }

  lemma PolledIsFresh(d: Driver, hits: seq<Hit>, i: nat)
    requires Good(d.link) && Pollable(d.link.enabled, d.link.table, hits) && i < |hits| && Sole(d.link, hits[i].slot)
    ensures d.link.enabled && Fresh(d.link, hits[i].slot)
  {
    var k := hits[i].slot;
    assert SlotOk(k, d.link.table[k], d.link.enabled);
  }

  /** Poll results do not go stale while no callback enters the loop again and no helper
      was started over another one: whatever record came with them, and though callbacks
      may disconnect or reconnect and helpers go on, the loop is left before it would read
      an eventfd that no longer holds its one notification. */
  lemma {:induction false} EnabledGuardsPoll(d: Driver, record: Option<Record>, answer: Answer, hits: seq<Hit>)
    requires Good(d.link) && d.link.life.Alive? && Pollable(d.link.enabled, d.link.table, hits) && NoneReenters(hits)
    requires forall i :: 0 <= i < |hits| ==> Sole(d.link, hits[i].slot)
    ensures var e := if record.Some? then RuntimeRecord(d, record.value, answer) else d;
      !ReadsStale(e, hits)
  {
    var e := if record.Some? then RuntimeRecord(d, record.value, answer) else d;
    if hits != [] {
      forall i | 0 <= i < |hits| ensures Fresh(d.link, hits[i].slot) {
        PolledIsFresh(d, hits, i);
      }
      PolledIsFresh(d, hits, 0);
      if record.Some? {
        RecordKeepsFresh(d, record.value, answer);
        RecordGoes(d, record.value, answer);
      }
      if e.link.life.Alive? {
        DrainIsFresh(e, hits);
      }
    }
  }

  lemma {:induction false} DrainIsFresh(d: Driver, hits: seq<Hit>)
    requires Good(d.link) && d.link.life.Alive? && Increasing(hits) && NoneReenters(hits)
    requires d.link.enabled ==>
      forall i :: 0 <= i < |hits| ==> Sole(d.link, hits[i].slot) && Fresh(d.link, hits[i].slot)
    ensures !ReadsStale(d, hits)
    decreases |hits|
  {
    if hits != [] && d.link.enabled {
      var t, e := Take(d, hits[0].slot), AfterHit(d, hits[0]);
      TakeGoes(d, hits[0].slot);
      EffectsKeepFresh(t, hits[0].effects);
      EffectsGo(t, hits[0].effects);
      if e.link.life.Alive? && e.link.enabled {
        var rest := hits[1..];
        forall i | 0 <= i < |rest| ensures Sole(e.link, rest[i].slot) && Fresh(e.link, rest[i].slot) {
          assert rest[i] == hits[i + 1] && Sole(t.link, hits[i + 1].slot) && Fresh(t.link, hits[i + 1].slot);
        }
        assert forall i, j :: 0 <= i < j < |rest| ==> rest[i].slot < rest[j].slot;
        DrainIsFresh(e, rest);
      }
    }
  }

  lemma TakeGoes(d: Driver, k: nat)
    requires Good(d.link) && Fresh(d.link, k)
    ensures Good(Take(d, k).link) && Goes(d, Take(d, k), false)
    ensures forall j: nat :: j != k ==> (Fresh(Take(d, k).link, j) <==> Fresh(d.link, j))
  {
    assert SlotOk(k, d.link.table[k], d.link.enabled);
    SlotGoes(d, k, d.link.table[k].(occupied := false, count := 0));
  }

  // ------------------------------------------------------- entering the loop again

  /** The loop goes on: the process lives and the bus is enabled. */
  predicate Live(d: Driver) {
    d.link.life.Alive? && d.link.enabled
  }

  /** What these rounds of the loop do, whatever their eventfds held. */
  function Onward(d: Driver, hits: seq<Hit>): Driver
    decreases |hits|
  {
    if hits == [] then d else Onward(Round(d, hits[0]), hits[1..])
  }

  function Round(d: Driver, hit: Hit): Driver {
    Effects(if hit.slot < |d.link.table| then Take(d, hit.slot) else d, hit.effects)
  }

  /** The loop is still going when it comes to hit i, as far as callbacks and helpers are
      concerned. */
  predicate Reaches(d: Driver, hits: seq<Hit>, i: nat)
    requires i < |hits|
  {
    forall j :: 0 <= j <= i ==> Live(Onward(d, hits[..j]))
  }

  lemma OnwardStep(d: Driver, hits: seq<Hit>, j: nat)
    requires 0 < j <= |hits|
    ensures Onward(d, hits[..j]) == Onward(Round(d, hits[0]), hits[1..][..j - 1])
  {
    assert hits[..j][0] == hits[0] && hits[..j][1..] == hits[1..][..j - 1];
  }

  lemma ReachesStep(d: Driver, hits: seq<Hit>, i: nat)
    requires 0 < i < |hits|
    ensures Reaches(d, hits, i) <==> Live(d) && Reaches(Round(d, hits[0]), hits[1..], i - 1)
  {
    var e, rest := Round(d, hits[0]), hits[1..];
    assert Onward(d, hits[..0]) == d;
    if Reaches(d, hits, i) {
      forall j | 0 <= j <= i - 1 ensures Live(Onward(e, rest[..j])) {
        OnwardStep(d, hits, j + 1);
      }
    }
    if Live(d) && Reaches(e, rest, i - 1) {
      forall j | 0 <= j <= i ensures Live(Onward(d, hits[..j])) {
        if j > 0 {
          OnwardStep(d, hits, j);
        }
      }
    }
  }

  /** The loop survives its poll results exactly when every eventfd that it comes to holds
      exactly 1 at that moment: whatever the callbacks do, entering the loop again
      included, at whatever depth and however often. */
  lemma {:induction false} OuterLoopSurvivesExactly(d: Driver, hits: seq<Hit>)
    ensures !ReadsStale(d, hits) <==>
      forall i :: 0 <= i < |hits| && Reaches(d, hits, i) ==> Fresh(Onward(d, hits[..i]).link, hits[i].slot)
    decreases |hits|
  {
    if hits != [] {
      var e, rest := Round(d, hits[0]), hits[1..];
      assert hits[..0] == [] && Onward(d, []) == d;
      assert Reaches(d, hits, 0) <==> Live(d);
      forall i | 0 < i < |hits|
        ensures Reaches(d, hits, i) <==> Live(d) && Reaches(e, rest, i - 1)
        ensures Onward(d, hits[..i]) == Onward(e, rest[..i - 1]) && hits[i] == rest[i - 1]
      {
        ReachesStep(d, hits, i);
        OnwardStep(d, hits, i);
      }
      if Live(d) && Fresh(d.link, hits[0].slot) {
        assert AfterHit(d, hits[0]) == e;
        OuterLoopSurvivesExactly(e, rest);
        assert forall i :: 0 <= i < |rest| ==> hits[i + 1] == rest[i];
      }
    }
  }

  /** What these effects make of slot k. */
  function SlotAfter(e: Endpoint, k: nat, effects: seq<Effect>): Endpoint
    decreases |effects|
  {
    if effects == [] then e
    else SlotAfter(if effects[0].Stores? && effects[0].slot == k then Stored(e, effects[0].orphan)
                   else if effects[0].Notifies? && effects[0].slot == k then Notified(e, effects[0].orphan)
                   else e, k, effects[1..])
  }

  /** The effects of all callbacks before hit i. */
  function EffectsBefore(hits: seq<Hit>, i: nat): seq<Effect>
    requires i <= |hits|
    decreases i
  {
    if i == 0 then [] else hits[0].effects + EffectsBefore(hits[1..], i - 1)
  }

  /** Hit i's eventfd will hold its one notification when the loop comes to it: a matter of
      its slot now and of what helpers do to that slot in the callbacks before. */
  predicate Ready(l: Link, hits: seq<Hit>, i: nat)
    requires i < |hits|
  {
    var k := hits[i].slot;
    k < |l.table| &&
    (var e := SlotAfter(l.table[k], k, EffectsBefore(hits, i)); e.eventOpen && e.count == 1)
  }

  lemma {:induction false} SlotAfterConcat(e: Endpoint, k: nat, a: seq<Effect>, b: seq<Effect>)
    ensures SlotAfter(e, k, a + b) == SlotAfter(SlotAfter(e, k, a), k, b)
    decreases |a|
  {
    if a == [] {
      assert a + b == b;
    } else {
      var f := if a[0].Stores? && a[0].slot == k then Stored(e, a[0].orphan)
               else if a[0].Notifies? && a[0].slot == k then Notified(e, a[0].orphan) else e;
      assert (a + b)[1..] == a[1..] + b && (a + b)[0] == a[0];
      SlotAfterConcat(f, k, a[1..], b);
    }
  }

  /** While the loop goes on, a callback that does not poll changes a slot only so. */
  lemma EffectOnSlot(d: Driver, e: Effect, k: nat)
    requires WellSized(d.link) && d.link.life.Alive? && !e.Reenters? && k < |d.link.table|
    ensures var m := Apply(d, e).link;
      m.life.Exited? || (WellSized(m) && |m.table| == |d.link.table|
                         && (m.enabled ==> d.link.enabled && m.table[k] == SlotAfter(d.link.table[k], k, [e])))
  {
    assert [e][1..] == [];
    match e
    case Disconnects =>
    case Reconnects(inbox) => ConfigureIsQuiet(d.link, true, inbox);
    case Stores(j, _, _) =>
    case Notifies(j, _) =>
  }

  lemma {:induction false} EffectsOnSlot(d: Driver, effects: seq<Effect>, k: nat)
    requires WellSized(d.link) && d.link.life.Alive? && NoReentry(effects) && k < |d.link.table|
    ensures var m := Effects(d, effects).link;
      m.life.Exited? || (WellSized(m) && |m.table| == |d.link.table|
                         && (m.life.Alive? && m.enabled ==>
                               d.link.enabled && m.table[k] == SlotAfter(d.link.table[k], k, effects)))
    decreases |effects|
  {
    if effects != [] {
      var e, rest := Apply(d, effects[0]), effects[1..];
      EffectOnSlot(d, effects[0], k);
      assert effects == [effects[0]] + rest;
      SlotAfterConcat(d.link.table[k], k, [effects[0]], rest);
      if e.link.life.Alive? {
        EffectsOnSlot(e, rest, k);
      } else {
        assert Effects(e, rest) == e;
      }
    }
  }

  lemma RoundOnSlot(d: Driver, hit: Hit, k: nat)
    requires WellSized(d.link) && Live(d) && NoReentry(hit.effects) && k < |d.link.table| && hit.slot < k
    ensures var m := Round(d, hit).link;
      m.life.Exited? || (WellSized(m) && |m.table| == |d.link.table|
                         && (m.life.Alive? && m.enabled ==> m.table[k] == SlotAfter(d.link.table[k], k, hit.effects)))
  {
    EffectsOnSlot(Take(d, hit.slot), hit.effects, k);
  }

  /** The slot of hit i when the loop comes to it. */
  lemma {:induction false} ReachedSlot(d: Driver, hits: seq<Hit>, i: nat)
    requires WellSized(d.link) && Increasing(hits) && NoneReenters(hits) && i < |hits| && hits[i].slot < |d.link.table|
    requires Reaches(d, hits, i)
    ensures var m := Onward(d, hits[..i]).link;
      |m.table| == |d.link.table|
      && m.table[hits[i].slot] == SlotAfter(d.link.table[hits[i].slot], hits[i].slot, EffectsBefore(hits, i))
    decreases i
  {
    if i > 0 {
      var e, rest, k := Round(d, hits[0]), hits[1..], hits[i].slot;
      assert Onward(d, hits[..0]) == d;
      ReachesStep(d, hits, i);
      OnwardStep(d, hits, i);
      assert Onward(e, rest[..0]) == e;
      RoundOnSlot(d, hits[0], k);
      assert rest[i - 1] == hits[i];
      ReachedSlot(e, rest, i - 1);
      SlotAfterConcat(d.link.table[k], k, hits[0].effects, EffectsBefore(rest, i - 1));
    } else {
      assert hits[..0] == [];
    }
  }

  lemma {:induction false} SizeStays(d: Driver, hits: seq<Hit>, i: nat)
    requires WellSized(d.link) && NoneReenters(hits) && i < |hits| && Reaches(d, hits, i)
    ensures |Onward(d, hits[..i]).link.table| == |d.link.table|
    decreases i
  {
    if i > 0 {
      var e, rest := Round(d, hits[0]), hits[1..];
      assert Onward(d, hits[..0]) == d;
      ReachesStep(d, hits, i);
      OnwardStep(d, hits, i);
      assert Onward(e, rest[..0]) == e;
      EffectsOnSlot(if hits[0].slot < |d.link.table| then Take(d, hits[0].slot) else d, hits[0].effects, 0);
      assert forall j :: 0 <= j < |rest| ==> rest[j] == hits[j + 1];
      SizeStays(e, rest, i - 1);
    } else {
      assert hits[..0] == [];
    }
  }

  /** Where no callback polls, and from any state of the loop however it came about, that
      can be told beforehand: the loop survives exactly when each eventfd that it comes to
      is ready now, the helpers' own steps in the callbacks before it counted in. */
  lemma {:induction false} RestOfLoopExactly(d: Driver, hits: seq<Hit>)
    requires WellSized(d.link) && Increasing(hits) && NoneReenters(hits)
    ensures !ReadsStale(d, hits) <==> forall i :: 0 <= i < |hits| && Reaches(d, hits, i) ==> Ready(d.link, hits, i)
  {
    OuterLoopSurvivesExactly(d, hits);
    forall i | 0 <= i < |hits| && Reaches(d, hits, i)
      ensures Fresh(Onward(d, hits[..i]).link, hits[i].slot) <==> Ready(d.link, hits, i)
    {
      SizeStays(d, hits, i);
      if hits[i].slot < |d.link.table| {
        ReachedSlot(d, hits, i);
      }
    }
  }

  /** A nested pass that serves endpoint k. */
  function Steals(k: nat): Effect {
    Reenters(None, Answer(false, []), [Hit(k, [])])
  }

  /** Two endpoints are reported, the first callback polls, and the nested pass serves the
      second one: the outer loop then finds its eventfd empty. */
  lemma NestedPassSteals(d: Driver, j: nat, k: nat)
    requires Good(d.link) && d.link.life.Alive? && d.link.enabled && j < k && Fresh(d.link, j) && Fresh(d.link, k)
    ensures var hits := [Hit(j, [Steals(k)]), Hit(k, [])];
      Pollable(d.link.enabled, d.link.table, hits) && ReadsStale(d, hits) && Drain(d, hits).link.life.Exited?
  {
    var hits := [Hit(j, [Steals(k)]), Hit(k, [])];
    TakeGoes(d, j);
    var t := Take(d, j);
    NestedServes(t, k);
    SingleEffect(t, Steals(k));
    assert hits[1..] == [Hit(k, [])];
    StaleReadExits(d, hits);
  }

  lemma SingleEffect(d: Driver, e: Effect)
    requires d.link.life.Alive?
    ensures Effects(d, [e]) == Apply(d, e)
  {
    assert [e][1..] == [];
    assert Effects(Apply(d, e), []) == Apply(d, e);
  }

  lemma NestedServes(d: Driver, k: nat)
    requires Good(d.link) && d.link.life.Alive? && d.link.enabled && Fresh(d.link, k)
    ensures Apply(d, Steals(k)) == Take(d, k) && !Fresh(Take(d, k).link, k)
  {
    var hits := [Hit(k, [])];
    var t := Take(d, k);
    assert hits[1..] == [] && hits[0].effects == [] && Pollable(d.link.enabled, d.link.table, hits);
    assert Effects(t, []) == t && Drain(t, []) == t;
    assert Drain(d, hits) == Drain(Effects(t, hits[0].effects), hits[1..]);
    assert Apply(d, Steals(k)) == Pass(d, None, Answer(false, []), hits);
  }

  /** A nested DISABLE and ENABLE leave every endpoint with a fresh, empty eventfd. */
  lemma NestedRestartEmpties(d: Driver, disable: Record, enable: Record, answer: Answer, k: nat)
    requires Good(d.link) && d.link.life.Alive?
    requires disable.kind == KIND_USB_BUS_EVENT && IsBusEvent(d.link, disable) && disable.body[0] == 3
    requires enable.kind == KIND_USB_BUS_EVENT && IsBusEvent(d.link, enable) && enable.body[0] == 2
    ensures var e := Effects(d, [Reenters(Some(disable), answer, []), Reenters(Some(enable), answer, [])]);
      e.link.life.Exited? || (e.link.enabled && !Fresh(e.link, k))
  {
    var effects := [Reenters(Some(disable), answer, []), Reenters(Some(enable), answer, [])];
    EffectGoes(d, effects[0]);
    var e := Apply(d, effects[0]);
    var h := Heard(d.link, disable);
    PassWithoutHits(d, Some(disable), answer);
    PassWithoutHits(e, Some(enable), answer);
    assert e.link == Halt(h);
    assert forall j :: 0 <= j < |h.table| ==> e.link.table[j].count == 0 by {
      assert forall j :: 0 <= j < |h.table| ==> SlotOk(j, e.link.table[j], false);
    }
    assert effects[1..] == [effects[1]];
    SingleEffect(e, effects[1]);
    EffectGoes(e, effects[1]);
    RestartedIsEmpty(e, enable, answer, k);
  }

  lemma PassWithoutHits(d: Driver, record: Option<Record>, answer: Answer)
    ensures Pass(d, record, answer, []) == if record.Some? then RuntimeRecord(d, record.value, answer) else d
  {}

  lemma RestartedIsEmpty(d: Driver, enable: Record, answer: Answer, k: nat)
    requires Good(d.link) && d.link.life.Alive? && !d.link.enabled
    requires forall j :: 0 <= j < |d.link.table| ==> d.link.table[j].count == 0
    requires enable.kind == KIND_USB_BUS_EVENT && IsBusEvent(d.link, enable) && enable.body[0] == 2
    ensures var e := RuntimeRecord(d, enable, answer);
      e.link.life.Exited? || (e.link.enabled && !Fresh(e.link, k))
  {
    var heard := Heard(d.link, enable);
    SetUpKeepsSlots(heard, answer.setups);
    var s := SetUp(heard, answer.setups);
    var e := RuntimeRecord(d, enable, answer);
    if !e.link.life.Exited? {
      assert e.link == StartThreads(s).(enabled := true);
      assert k < |s.table| ==> e.link.table[k] == StartSlot(Legacy, k, s.table[k]);
    }
  }

  // ------------------------------------------------ how helpers are started twice

  /** The effect may clear usb_enabled without stopping the helpers. */
  predicate Drops(e: Effect)
    decreases e, 0
  {
    e.Disconnects? || (e.Reenters? && HitsDrop(e.hits))
  }

  predicate HitsDrop(hits: seq<Hit>)
    decreases hits, 0
  {
    hits != [] && (EffectsDrop(hits[0].effects) || HitsDrop(hits[1..]))
  }

  predicate EffectsDrop(effects: seq<Effect>)
    decreases effects, 0
  {
    effects != [] && (Drops(effects[0]) || EffectsDrop(effects[1..]))
  }

  predicate IsEnable(record: Option<Record>) {
    record.Some? && record.value.kind == KIND_USB_BUS_EVENT && |record.value.body| == BUS_EVENT_BODY_LENGTH
    && record.value.body[0] == 2
  }

  /** BIND, UNBIND, DISABLE or QUIESCE. */
  predicate IsStop(record: Option<Record>) {
    record.Some? &&
    (record.value.kind == KIND_QUIESCE ||
     (record.value.kind == KIND_USB_BUS_EVENT && |record.value.body| == BUS_EVENT_BODY_LENGTH
      && (record.value.body[0] == 0 || record.value.body[0] == 1 || record.value.body[0] == 3)))
  }

  /** An ENABLE is handled in a pass of its callbacks. */
  predicate HitsEnable(hits: seq<Hit>)
    decreases hits, 0
  {
    hits != [] && (EffectsEnable(hits[0].effects) || HitsEnable(hits[1..]))
  }

  predicate EffectsEnable(effects: seq<Effect>)
    decreases effects, 0
  {
    effects != [] && (Enabling(effects[0]) || EffectsEnable(effects[1..]))
  }

  predicate Enabling(e: Effect)
    decreases e, 0
  {
    e.Reenters? && (IsEnable(e.record) || HitsEnable(e.hits))
  }

  lemma HaltIsTidy(l: Link)
    ensures Tidy(Halt(l)) && Tidy(CloseEndpoints(l))
  {}

  lemma TidyDoesNotLinger(l: Link)
    requires Consistent(l) && Tidy(l)
    ensures !Lingers(l)
  {
    forall k | 0 <= k < |l.table| ensures l.table[k].running ==> Threaded(Legacy, k) {
      assert SlotOk(k, l.table[k], l.enabled);
    }
  }

  lemma RecordStaysTidy(d: Driver, r: Record, answer: Answer)
    requires Good(d.link) && (Tidy(d.link) || IsStop(Some(r)))
    ensures var m := RuntimeRecord(d, r, answer).link; m.life.Exited? || Tidy(m)
  {
    var heard := Heard(d.link, r);
    HaltIsTidy(heard);
    SetUpKeepsSlots(heard, answer.setups);
  }

  /** From a tidy state, without a drop, all stays tidy and nothing is started twice. */
  lemma {:induction false} DrainStaysTidy(d: Driver, hits: seq<Hit>)
    requires Good(d.link) && Tidy(d.link) && !HitsDrop(hits)
    ensures var m := Drain(d, hits).link; m.life.Exited? || Tidy(m)
    ensures !DrainDoubles(d, hits)
    decreases hits, 0
  {
    if hits != [] && d.link.enabled && d.link.life.Alive? && Fresh(d.link, hits[0].slot) {
      var t := Take(d, hits[0].slot);
      TakeGoes(d, hits[0].slot);
      EffectsGo(t, hits[0].effects);
      EffectsStayTidy(t, hits[0].effects);
      var e := Effects(t, hits[0].effects);
      if !e.link.life.Exited? {
        DrainStaysTidy(e, hits[1..]);
      }
    }
  }

  lemma {:induction false} EffectsStayTidy(d: Driver, effects: seq<Effect>)
    requires Good(d.link) && Tidy(d.link) && !EffectsDrop(effects)
    ensures var m := Effects(d, effects).link; m.life.Exited? || Tidy(m)
    ensures !EffectsDouble(d, effects)
    decreases effects, 0
  {
    if effects != [] && d.link.life.Alive? {
      EffectGoes(d, effects[0]);
      EffectStaysTidy(d, effects[0]);
      var e := Apply(d, effects[0]);
      if !e.link.life.Exited? {
        EffectsStayTidy(e, effects[1..]);
      }
    }
  }

  lemma {:induction false} EffectStaysTidy(d: Driver, e: Effect)
    requires Good(d.link) && Tidy(d.link) && d.link.life.Alive? && !Drops(e)
    ensures var m := Apply(d, e).link; m.life.Exited? || Tidy(m)
    ensures !EffectDoubles(d, e)
    decreases e, 0
  {
    match e
    case Reconnects(inbox) => ConfigureIsGood(d.link, true, inbox);
    case Stores(_, _, _) =>
    case Notifies(_, _) =>
    case Reenters(record, answer, hits) =>
      TidyDoesNotLinger(d.link);
      PassStaysTidy(d, record, answer, hits);
    case Disconnects =>
  }

  lemma {:induction false} PassStaysTidy(d: Driver, record: Option<Record>, answer: Answer, hits: seq<Hit>)
    requires Good(d.link) && d.link.life.Alive? && (Tidy(d.link) || IsStop(record)) && !HitsDrop(hits)
    ensures var m := Pass(d, record, answer, hits).link; m.life.Exited? || Tidy(m)
    ensures PassDoubles(d, record, answer, hits) ==> record.Some? && Enables(d, record.value, answer) && Lingers(d.link)
    decreases hits, 1
  {
    var e := if record.Some? then RuntimeRecord(d, record.value, answer) else d;
    if record.Some? {
      RecordGoes(d, record.value, answer);
      RecordStaysTidy(d, record.value, answer);
    }
    if !e.link.life.Exited? {
      DrainStaysTidy(e, hits);
    } else {
      assert Drain(e, hits) == e && !DrainDoubles(e, hits);
    }
  }

  /** Nothing is started twice where nothing is enabled. */
  lemma {:induction false} DoublingNeedsEnable(d: Driver, hits: seq<Hit>)
    ensures DrainDoubles(d, hits) ==> HitsEnable(hits)
    decreases hits, 0
  {
    if hits != [] && Fresh(d.link, hits[0].slot) {
      EffectsNeedEnable(Take(d, hits[0].slot), hits[0].effects);
      DoublingNeedsEnable(Effects(Take(d, hits[0].slot), hits[0].effects), hits[1..]);
    }
  }

  lemma {:induction false} EffectsNeedEnable(d: Driver, effects: seq<Effect>)
    ensures EffectsDouble(d, effects) ==> EffectsEnable(effects)
    decreases effects, 0
  {
    if effects != [] {
      if effects[0].Reenters? {
        PassNeedsEnable(d, effects[0].record, effects[0].answer, effects[0].hits);
      }
      assert EffectDoubles(d, effects[0]) ==> Enabling(effects[0]);
      EffectsNeedEnable(Apply(d, effects[0]), effects[1..]);
    }
  }

  lemma {:induction false} PassNeedsEnable(d: Driver, record: Option<Record>, answer: Answer, hits: seq<Hit>)
    ensures PassDoubles(d, record, answer, hits) ==> IsEnable(record) || HitsEnable(hits)
    decreases hits, 1
  {
    DoublingNeedsEnable(if record.Some? then RuntimeRecord(d, record.value, answer) else d, hits);
  }

  /** A drop was not followed by a pass whose record stops the helpers. */
  predicate Loose(actions: seq<Action>) {
    actions != [] &&
    (var front, a := actions[..|actions| - 1], actions[|actions| - 1];
     (a.Happens? && Drops(a.effect)) || (Loose(front) && !Stops(a)))
  }

  predicate Stops(a: Action) {
    a.Happens? && a.effect.Reenters? && IsStop(a.effect.record)
  }

  /** No ENABLE comes after a drop without BIND, UNBIND, DISABLE or QUIESCE between them;
      one handled inside a callback also not after a drop in the same pass. */
  predicate StoppedBeforeEnable(actions: seq<Action>) {
    actions == [] ||
    (var front, a := actions[..|actions| - 1], actions[|actions| - 1];
     && StoppedBeforeEnable(front)
     && (a.Happens? && a.effect.Reenters? ==>
           && (IsEnable(a.effect.record) ==> !Loose(front))
           && (HitsEnable(a.effect.hits) ==> (!Loose(front) || Stops(a)) && !HitsDrop(a.effect.hits))))
  }

  lemma {:induction false} NotLooseIsTidy(inbox: seq<Record>, actions: seq<Action>)
    requires !Loose(actions)
    ensures var l := Run(Started(inbox), actions).link; l.life.Alive? ==> Tidy(l)
  {
    if actions == [] {
      StartedIsTidy(inbox);
    } else {
      var front, a := actions[..|actions| - 1], actions[|actions| - 1];
      EveryRun(inbox, front);
      if !Loose(front) {
        NotLooseIsTidy(inbox, front);
      }
      var d := Run(Started(inbox), front);
      if d.link.life.Alive? {
        StepStaysTidy(d, a);
      }
    }
  }

  lemma InitIsTidy(d: Driver, inbox: seq<Record>)
    requires WellSized(d.link)
    ensures var l := Init(d, inbox).link; l.life.Alive? && d.link.life.Alive? ==> Tidy(l)
  {
    InitLink(d, inbox);
    var r := Reset(d.link, d.initialized);
    var asked := SendConfiguration(r);
    if asked.life.Alive? && Configure(r, false, inbox).verdict.Serving? {
      QuiescedAwait(asked, r.nextRequestId, false, inbox);
      HaltIsTidy(Heard(asked, inbox[0]));
      InstalledIsTidy(Heard(asked, inbox[0]), inbox[0]);
    }
  }

  lemma InstalledIsTidy(l: Link, r: Record)
    requires !Install(l, r).life.Exited?
    ensures Tidy(Install(l, r))
  {
    HaltIsTidy(l);
    var c := CloseEndpoints(l);
    assert forall k :: 0 <= k < |c.table| ==> Install(l, r).table[k].running == c.table[k].running;
  }

  lemma StartedIsTidy(inbox: seq<Record>)
    ensures var l := Started(inbox).link; l.life.Alive? ==> Tidy(l)
  {
    ZeroedIsOrderly(Legacy);
    InitIsTidy(Boot(), inbox);
  }

  lemma StepStaysTidy(d: Driver, a: Action)
    requires Kept(d) && d.link.life.Alive? && (Tidy(d.link) || Stops(a)) && !(a.Happens? && Drops(a.effect))
    ensures var m := Step(d, a).link; m.life.Alive? ==> Tidy(m)
  {
    match a
    case CallInit(inbox) => InitIsTidy(d, inbox);
    case Happens(e) =>
      if Tidy(d.link) {
        EffectStaysTidy(d, e);
      } else {
        PassStaysTidy(d, e.record, e.answer, e.hits);
      }
  }

  lemma StepDoesNotDouble(d: Driver, a: Action)
    requires Kept(d) && d.link.life.Alive? && a.Happens? && a.effect.Reenters?
    requires IsEnable(a.effect.record) ==> Tidy(d.link)
    requires HitsEnable(a.effect.hits) ==> (Tidy(d.link) || Stops(a)) && !HitsDrop(a.effect.hits)
    ensures !DoubleStarts(d, a)
  {
    var e := a.effect;
    var f := if e.record.Some? then RuntimeRecord(d, e.record.value, e.answer) else d;
    if Tidy(d.link) {
      TidyDoesNotLinger(d.link);
    }
    assert !(e.record.Some? && Enables(d, e.record.value, e.answer) && Lingers(d.link));
    if HitsEnable(e.hits) {
      PassStaysTidy(d, e.record, e.answer, e.hits);
    } else {
      DoublingNeedsEnable(f, e.hits);
      assert !PassDoubles(d, e.record, e.answer, e.hits);
    }
  }

  /** When every drop is followed by BIND, UNBIND, DISABLE or QUIESCE before the next
      ENABLE, no helper is ever started over another one. */
  lemma {:induction false} StopsPreventDoubleStart(inbox: seq<Record>, actions: seq<Action>)
    requires StoppedBeforeEnable(actions)
    ensures !DoubleStarted(Started(inbox), actions)
  {
    if actions != [] {
      var front, a := actions[..|actions| - 1], actions[|actions| - 1];
      StopsPreventDoubleStart(inbox, front);
      EveryRun(inbox, front);
      var d := Run(Started(inbox), front);
      if d.link.life.Alive? && a.Happens? && a.effect.Reenters? {
        if !Loose(front) {
          NotLooseIsTidy(inbox, front);
        }
        StepDoesNotDouble(d, a);
      }
    }
  }

  // -------------------------------------------------------------- what it leads to

  /** ENABLE while helpers linger starts each of them over. */
  lemma LingeringEnableStartsOver(d: Driver, r: Record, answer: Answer, k: nat)
    requires Good(d.link) && d.link.life.Alive? && Enables(d, r, answer)
    requires k < |d.link.table| && d.link.table[k].running
    ensures var m := RuntimeRecord(d, r, answer).link;
      m.life.Exited? || exists j :: 0 <= j < |m.log| && StartedOver(m.log, j, k)
  {
    var heard := Heard(d.link, r);
    var m := RuntimeRecord(d, r, answer).link;
    if !m.life.Exited? {
      SetUpKeepsSlots(heard, answer.setups);
      var s := SetUp(heard, answer.setups);
      HelperStep(d.link.log, Received(r), k);
      assert SlotOk(k, d.link.table[k], d.link.enabled);
      FlagIsAHelper(d.link.log, k);
      SpawnStartsOver(Legacy, s.table, s.log, k);
    }
  }

  /** QUIESCE then closes the file of such a slot although the helper that was started
      first has not been joined. */
  lemma QuiesceClosesUnderHelper(d: Driver, r: Record, answer: Answer, k: nat)
    requires Good(d.link) && d.link.life.Alive? && r.kind == KIND_QUIESCE && IsRuntimeQuiesce(d.link, r)
    requires k < |d.link.table| && d.link.table[k].fd.Some?
    requires exists j :: 0 <= j < |d.link.log| && StartedOver(d.link.log, j, k)
    ensures ClosesUnderHelper(RuntimeRecord(d, r, answer).link.log, k)
  {
    var log := RuntimeRecord(d, r, answer).link.log;
    QuiesceCloses(d, r, answer, k);
    var i :| |d.link.log| <= i < |log| && log[i] == Closed(k, d.link.table[k].fd.value);
    RecordGoes(d, r, answer);
    ClosedUnderHelperExactly(log, i);
    var j :| 0 <= j < |d.link.log| && StartedOver(d.link.log, j, k);
    assert log[..i][..j] == d.link.log[..j] && log[..i][j] == d.link.log[j];
    assert StartedOver(log[..i], j, k);
  }

  lemma QuiesceCloses(d: Driver, r: Record, answer: Answer, k: nat)
    requires Good(d.link) && d.link.life.Alive? && r.kind == KIND_QUIESCE && IsRuntimeQuiesce(d.link, r)
    requires k < |d.link.table| && d.link.table[k].fd.Some?
    ensures var log := RuntimeRecord(d, r, answer).link.log;
      d.link.log <= log && exists i :: |d.link.log| <= i < |log| && log[i] == Closed(k, d.link.table[k].fd.value)
  {
    var heard := Heard(d.link, r);
    var h := Halt(heard);
    var log := RuntimeRecord(d, r, answer).link.log;
    var e := Closed(k, d.link.table[k].fd.value);
    TakedownClosesAll(h.table, k);
    var n :| 0 <= n < |CloseEvents(h.table)| && CloseEvents(h.table)[n] == e;
    assert log == h.log + CloseEvents(h.table) + [Sent(KIND_QUIESCED, heard.generation, r.requestId)];
    assert d.link.log <= h.log && h.log <= log;
    assert log[|h.log| + n] == e;
  }

  /** Somewhere the file of slot k is closed while a helper of that slot lives. */
  predicate ClosesUnderHelper(log: seq<Event>, k: nat) {
    exists i :: 0 <= i < |log| && log[i].Closed? && log[i].slot == k && Helpers(log[..i], k) > 0
  }
}
