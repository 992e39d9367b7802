/** What the log and the endpoint table say about descriptors, helper threads,
    request ids and bus events, and how each event changes that. */
module Ledger {
  import opened Common
  import opened Wire
  import opened EndpointMap
  import opened Generation

  // --------------------------------------------------- descriptors, from the log

  /** How often descriptor x was handed over. */
  function Occurrences(fds: seq<Fd>, x: Fd): nat {
    if fds == [] then 0
    else Occurrences(fds[..|fds| - 1], x) + (if fds[|fds| - 1] == x then 1 else 0)
  }

  function EventIn(e: Event, x: Fd): nat {
    if e.Received? then Occurrences(e.record.fds, x) else 0
  }

  /** Closed, or forgotten by re-initialisation. */
  function EventOut(e: Event, x: Fd): nat {
    if (e.Closed? && e.fd == x) || (e.Forgotten? && e.fd == x) then 1 else 0
  }

  function In(log: seq<Event>, x: Fd): nat {
    if log == [] then 0 else In(log[..|log| - 1], x) + EventIn(log[|log| - 1], x)
  }

  function Out(log: seq<Event>, x: Fd): nat {
    if log == [] then 0 else Out(log[..|log| - 1], x) + EventOut(log[|log| - 1], x)
  }

  /** How many slots hold descriptor x. */
  function Open(t: seq<Endpoint>, x: Fd): nat {
    if t == [] then 0
    else Open(t[..|t| - 1], x) + (if t[|t| - 1].fd == Some(x) then 1 else 0)
  }

  /** Received, but neither closed, forgotten nor in a slot. */
  function Drift(l: Link, x: Fd): int {
    In(l.log, x) - Out(l.log, x) - Open(l.table, x)
  }

  /** Each time a descriptor was received accounts for one slot that holds it or one
      time it was closed (or forgotten): none is lost, none is closed twice. */
  ghost predicate Conserved(l: Link) {
    forall x: Fd :: Drift(l, x) == 0
  }

  lemma FdsStep(log: seq<Event>, e: Event, x: Fd)
    ensures In(log + [e], x) == In(log, x) + EventIn(e, x)
    ensures Out(log + [e], x) == Out(log, x) + EventOut(e, x)
  {
    assert (log + [e])[..|log|] == log;
  }

  lemma {:induction false} FdsConcat(a: seq<Event>, b: seq<Event>, x: Fd)
    ensures In(a + b, x) == In(a, x) + In(b, x)
    ensures Out(a + b, x) == Out(a, x) + Out(b, x)
    decreases |b|
  {
    if b == [] {
      assert a + b == a;
    } else {
      var front, e := b[..|b| - 1], b[|b| - 1];
      FdsConcat(a, front, x);
      assert a + b == (a + front) + [e];
      FdsStep(a + front, e, x);
    }
  }

  lemma {:induction false} JoinsMoveNothing(w: Worker, t: seq<Endpoint>, x: Fd)
    ensures In(JoinEvents(w, t), x) == Out(JoinEvents(w, t), x) == 0
  {
    if t != [] {
      var k := |t| - 1;
      JoinsMoveNothing(w, t[..k], x);
      FdsStep(JoinEvents(w, t[..k]), Joined(k), x);
    }
  }

  lemma {:induction false} SpawnsMoveNothing(w: Worker, t: seq<Endpoint>, x: Fd)
    ensures In(SpawnEvents(w, t), x) == Out(SpawnEvents(w, t), x) == 0
  {
    if t != [] {
      var k := |t| - 1;
      SpawnsMoveNothing(w, t[..k], x);
      FdsStep(SpawnEvents(w, t[..k]), Spawned(k), x);
    }
  }

  lemma {:induction false} ClosesMoveEverything(t: seq<Endpoint>, x: Fd)
    ensures In(CloseEvents(t), x) == 0 && Out(CloseEvents(t), x) == Open(t, x)
  {
    if t != [] {
      var k := |t| - 1;
      ClosesMoveEverything(t[..k], x);
      if t[k].fd.Some? {
        FdsStep(CloseEvents(t[..k]), Closed(k, t[k].fd.value), x);
      }
    }
  }

  lemma {:induction false} OpenSame(s: seq<Endpoint>, t: seq<Endpoint>, x: Fd)
    requires |s| == |t| && forall k :: 0 <= k < |t| ==> s[k].fd == t[k].fd
    ensures Open(s, x) == Open(t, x)
  {
    if t != [] {
      OpenSame(s[..|s| - 1], t[..|t| - 1], x);
    }
  }

  lemma {:induction false} NothingOpen(t: seq<Endpoint>, x: Fd)
    requires forall k :: 0 <= k < |t| ==> t[k].fd.None?
    ensures Open(t, x) == 0
  {
    if t != [] {
      NothingOpen(t[..|t| - 1], x);
    }
  }

  lemma {:induction false} OpenUpdate(t: seq<Endpoint>, k: nat, e: Endpoint, x: Fd)
    requires k < |t| && t[k].fd.None? && e.fd.Some?
    ensures Open(t[k := e], x) == Open(t, x) + (if e.fd.value == x then 1 else 0)
  {
    var n := |t| - 1;
    if k < n {
      OpenUpdate(t[..n], k, e, x);
      assert t[k := e][..n] == t[..n][k := e];
    } else {
      assert t[k := e][..n] == t[..n];
    }
  }

  lemma {:induction false} InstallOpensAll(was: seq<Endpoint>, es: seq<Entry>, fds: seq<Fd>, maxNumber: nat, x: Fd)
    requires |es| == |fds| && Placeable(es, maxNumber) && |was| == 2 * maxNumber <= 254
    requires forall k :: 0 <= k < |was| ==> was[k].fd.None?
    ensures Open(FillTable(was, es, fds), x) == Occurrences(fds, x)
  {
    if es == [] {
      NothingOpen(FillTable(was, es, fds), x);
    } else {
      var i := |es| - 1;
      InstallOpensAll(was, es[..i], fds[..i], maxNumber, x);
      PlaceOneMore(es, fds, was, i, maxNumber);
      assert es[..i + 1] == es && fds[..i + 1] == fds;
      var before := FillTable(was, es[..i], fds[..i]);
      var k := SlotOf(es[i].address);
      var e := FillSlot(was[k], es, fds, k);
      OpenUpdate(before, k, e, x);
      InstallChangesOneSlot(was, es, fds, maxNumber);
    }
  }

  lemma InstallChangesOneSlot(was: seq<Endpoint>, es: seq<Entry>, fds: seq<Fd>, maxNumber: nat)
    requires 0 < |es| == |fds| && Placeable(es, maxNumber) && |was| == 2 * maxNumber <= 254
    requires forall k :: 0 <= k < |was| ==> was[k].fd.None?
    ensures var i := |es| - 1;
      var k := SlotOf(es[i].address);
      k < |was| && FillTable(was, es, fds) == FillTable(was, es[..i], fds[..i])[k := FillSlot(was[k], es, fds, k)]
  {
    var i := |es| - 1;
    PlaceOneMore(es, fds, was, i, maxNumber);
    assert es[..i + 1] == es && fds[..i + 1] == fds;
  }

  lemma {:induction false} ForgettingMovesFds(t: seq<Endpoint>, x: Fd)
    ensures In(ForgetEvents(t), x) == 0 && Out(ForgetEvents(t), x) == Open(t, x)
  {
    if t != [] {
      var k := |t| - 1;
      ForgettingMovesFds(t[..k], x);
      if t[k].fd.Some? {
        FdsStep(ForgetEvents(t[..k]), Forgotten(t[k].fd.value), x);
      }
    }
  }

  // ------------------------------------------------------ helpers, from the log

  /** How many helpers of slot k have been started and not joined. */
  function Helpers(log: seq<Event>, k: nat): int {
    if log == [] then 0
    else
      var e := log[|log| - 1];
      Helpers(log[..|log| - 1], k) + (if e == Spawned(k) then 1 else if e == Joined(k) then -1 else 0)
  }

  /** The last thing that happened to slot k's helpers is that one was started: what
      `thread_running` remembers. */
  predicate Flagged(log: seq<Event>, k: nat) {
    log != [] &&
    var e := log[|log| - 1];
    if e == Spawned(k) then true else if e == Joined(k) then false else Flagged(log[..|log| - 1], k)
  }

  /** Only a flagged helper is joined, and a file is closed only with its flag down. */
  predicate Tended(log: seq<Event>) {
    log == [] ||
    (var front, e := log[..|log| - 1], log[|log| - 1];
     Tended(front) && (e.Joined? ==> Flagged(front, e.slot)) && (e.Closed? ==> !Flagged(front, e.slot)))
  }

  /** No helper was ever started on a slot that had one. */
  predicate SpawnedOnce(log: seq<Event>) {
    log == [] ||
    (var front, e := log[..|log| - 1], log[|log| - 1];
     SpawnedOnce(front) && (e.Spawned? ==> Helpers(front, e.slot) == 0))
  }

  lemma HelperStep(log: seq<Event>, e: Event, k: nat)
    ensures Flagged(log + [e], k) == (e == Spawned(k) || (e != Joined(k) && Flagged(log, k)))
    ensures Helpers(log + [e], k) == Helpers(log, k) + (if e == Spawned(k) then 1 else if e == Joined(k) then -1 else 0)
    ensures Tended(log + [e]) <==>
      Tended(log) && (e.Joined? ==> Flagged(log, e.slot)) && (e.Closed? ==> !Flagged(log, e.slot))
    ensures SpawnedOnce(log + [e]) <==> SpawnedOnce(log) && (e.Spawned? ==> Helpers(log, e.slot) == 0)
  {
    assert (log + [e])[..|log|] == log;
  }

  lemma {:induction false} FlagIsAHelper(log: seq<Event>, k: nat)
    requires Tended(log)
    ensures Helpers(log, k) >= if Flagged(log, k) then 1 else 0
  {
    if log != [] {
      FlagIsAHelper(log[..|log| - 1], k);
    }
  }

  /** While helpers are started one at a time the flag counts them. */
  lemma {:induction false} FlagCountsHelpers(log: seq<Event>, k: nat)
    requires Tended(log) && forall j :: 0 <= j < |log| ==> !StartedOver(log, j, k)
    ensures Helpers(log, k) == if Flagged(log, k) then 1 else 0
  {
    if log != [] {
      var n := |log| - 1;
      var front := log[..n];
      forall j | 0 <= j < n ensures !StartedOver(front, j, k) {
        assert log[..j] == front[..j] && !StartedOver(log, j, k);
      }
      FlagCountsHelpers(front, k);
      assert !StartedOver(log, n, k);
    }
  }

  /** Event j starts a helper on slot k although it still has one. */
  predicate StartedOver(log: seq<Event>, j: nat, k: nat)
    requires j < |log|
  {
    log[j] == Spawned(k) && Helpers(log[..j], k) > 0
  }

  /** A helper that was started over is never joined. */
  lemma {:induction false} OverwrittenHelperStays(log: seq<Event>, j: nat, k: nat)
    requires Tended(log) && j < |log| && StartedOver(log, j, k)
    ensures Helpers(log, k) >= 1 + if Flagged(log, k) then 1 else 0
  {
    var n := |log| - 1;
    if j < n {
      assert log[..n][..j] == log[..j];
      OverwrittenHelperStays(log[..n], j, k);
    }
  }

  lemma {:induction false} TendedPrefix(log: seq<Event>, i: nat)
    requires Tended(log) && i <= |log|
    ensures Tended(log[..i])
  {
    if i < |log| {
      TendedPrefix(log[..|log| - 1], i);
      assert log[..|log| - 1][..i] == log[..i];
    } else {
      assert log[..i] == log;
    }
  }

  lemma {:induction false} TendedAt(log: seq<Event>, i: nat)
    requires Tended(log) && i < |log| && log[i].Closed?
    ensures !Flagged(log[..i], log[i].slot)
  {
    TendedPrefix(log, i + 1);
    assert log[..i + 1][..i] == log[..i];
  }

  /** A file is closed under a live helper exactly when a helper of its slot had been
      started over another one before. */
  lemma {:induction false} ClosedUnderHelperExactly(log: seq<Event>, i: nat)
    requires Tended(log) && i < |log| && log[i].Closed?
    ensures Helpers(log[..i], log[i].slot) > 0 <==> exists j :: 0 <= j < i && StartedOver(log[..i], j, log[i].slot)
  {
    var k, front := log[i].slot, log[..i];
    TendedAt(log, i);
    TendedPrefix(log, i);
    if j :| 0 <= j < i && StartedOver(front, j, k) {
      OverwrittenHelperStays(front, j, k);
    } else {
      FlagCountsHelpers(front, k);
    }
  }

  lemma {:induction false} OnceMeansNever(log: seq<Event>, j: nat, k: nat)
    requires SpawnedOnce(log) && j < |log|
    ensures !StartedOver(log, j, k)
  {
    var n := |log| - 1;
    if j < n {
      assert log[..n][..j] == log[..j];
      OnceMeansNever(log[..n], j, k);
    }
  }

  /** The same, said of the whole log. */
  lemma {:induction false} OnceIffNever(log: seq<Event>)
    requires Tended(log)
    ensures SpawnedOnce(log) <==> forall j, k: nat :: 0 <= j < |log| ==> !StartedOver(log, j, k)
  {
    if log != [] {
      var n := |log| - 1;
      var front := log[..n];
      OnceIffNever(front);
      assert forall j :: 0 <= j < n ==> log[..j] == front[..j] && log[j] == front[j];
      assert forall j, k: nat :: 0 <= j < n ==> (StartedOver(log, j, k) <==> StartedOver(front, j, k));
      if log[n].Spawned? {
        FlagIsAHelper(front, log[n].slot);
        assert StartedOver(log, n, log[n].slot) <==> Helpers(front, log[n].slot) > 0;
      }
    }
  }

  lemma OnceFlagCounts(log: seq<Event>, k: nat)
    requires Tended(log) && SpawnedOnce(log)
    ensures Helpers(log, k) == if Flagged(log, k) then 1 else 0
  {
    forall j | 0 <= j < |log| ensures !StartedOver(log, j, k) {
      OnceMeansNever(log, j, k);
    }
    FlagCountsHelpers(log, k);
  }

  /** Helpers started one at a time are joined before their file is closed. */
  lemma {:induction false} OnceClosesAfterJoin(log: seq<Event>, i: nat)
    requires Tended(log) && SpawnedOnce(log) && i < |log| && log[i].Closed?
    ensures Helpers(log[..i], log[i].slot) == 0
  {
    var k := log[i].slot;
    OncePrefix(log, i);
    TendedPrefix(log, i);
    OnceFlagCounts(log[..i], k);
    TendedAt(log, i);
  }

  lemma {:induction false} OncePrefix(log: seq<Event>, i: nat)
    requires SpawnedOnce(log) && i <= |log|
    ensures SpawnedOnce(log[..i])
  {
    if i < |log| {
      OncePrefix(log[..|log| - 1], i);
      assert log[..|log| - 1][..i] == log[..i];
    } else {
      assert log[..i] == log;
    }
  }

  lemma {:induction false} OnceAfterQuiet(log: seq<Event>, more: seq<Event>)
    requires forall i :: 0 <= i < |more| ==> !more[i].Spawned?
    ensures SpawnedOnce(log + more) <==> SpawnedOnce(log)
    decreases |more|
  {
    if more == [] {
      assert log + more == log;
    } else {
      var front := more[..|more| - 1];
      OnceAfterQuiet(log, front);
      assert log + more == (log + front) + [more[|more| - 1]];
      HelperStep(log + front, more[|more| - 1], 0);
    }
  }

  lemma {:induction false} FlagsAfterJoins(w: Worker, t: seq<Endpoint>, log: seq<Event>, k: nat)
    ensures Flagged(log + JoinEvents(w, t), k) ==
      (Flagged(log, k) && !(k < |t| && Threaded(w, k) && t[k].running))
    ensures Helpers(log + JoinEvents(w, t), k) ==
      Helpers(log, k) - (if k < |t| && Threaded(w, k) && t[k].running then 1 else 0)
    decreases |t|
  {
    if t == [] {
      assert log + JoinEvents(w, t) == log;
    } else {
      var n := |t| - 1;
      FlagsAfterJoins(w, t[..n], log, k);
      assert k < n ==> t[..n][k] == t[k];
      if Threaded(w, n) && t[n].running {
        assert log + JoinEvents(w, t) == (log + JoinEvents(w, t[..n])) + [Joined(n)];
        HelperStep(log + JoinEvents(w, t[..n]), Joined(n), k);
      }
    }
  }

  lemma {:induction false} JoinsAreTended(w: Worker, t: seq<Endpoint>, log: seq<Event>)
    requires Tended(log) && forall k :: 0 <= k < |t| && Threaded(w, k) && t[k].running ==> Flagged(log, k)
    ensures Tended(log + JoinEvents(w, t))
    decreases |t|
  {
    if t == [] {
      assert log + JoinEvents(w, t) == log;
    } else {
      var n := |t| - 1;
      JoinsAreTended(w, t[..n], log);
      FlagsAfterJoins(w, t[..n], log, n);
      if Threaded(w, n) && t[n].running {
        assert log + JoinEvents(w, t) == (log + JoinEvents(w, t[..n])) + [Joined(n)];
        HelperStep(log + JoinEvents(w, t[..n]), Joined(n), n);
      }
    }
  }

  lemma {:induction false} FlagsAfterSpawns(w: Worker, t: seq<Endpoint>, log: seq<Event>, k: nat)
    ensures Flagged(log + SpawnEvents(w, t), k) == (Flagged(log, k) || (k < |t| && Startable(w, k, t[k])))
    ensures Helpers(log + SpawnEvents(w, t), k) == Helpers(log, k) + (if k < |t| && Startable(w, k, t[k]) then 1 else 0)
    ensures Tended(log) ==> Tended(log + SpawnEvents(w, t))
    decreases |t|
  {
    if t == [] {
      assert log + SpawnEvents(w, t) == log;
    } else {
      var n := |t| - 1;
      FlagsAfterSpawns(w, t[..n], log, k);
      if Startable(w, n, t[n]) {
        assert log + SpawnEvents(w, t) == (log + SpawnEvents(w, t[..n])) + [Spawned(n)];
        HelperStep(log + SpawnEvents(w, t[..n]), Spawned(n), k);
      }
    }
  }

  /** Starting the table is one at a time exactly when no startable slot has a helper. */
  lemma {:induction false} OnceAfterSpawns(w: Worker, t: seq<Endpoint>, log: seq<Event>)
    ensures SpawnedOnce(log + SpawnEvents(w, t)) <==>
      SpawnedOnce(log) && forall k :: 0 <= k < |t| && Startable(w, k, t[k]) ==> Helpers(log, k) == 0
    decreases |t|
  {
    if t == [] {
      assert log + SpawnEvents(w, t) == log;
    } else {
      var n := |t| - 1;
      var front := log + SpawnEvents(w, t[..n]);
      OnceAfterSpawns(w, t[..n], log);
      FlagsAfterSpawns(w, t[..n], log, n);
      assert forall k :: 0 <= k < n ==> t[..n][k] == t[k];
      if Startable(w, n, t[n]) {
        assert log + SpawnEvents(w, t) == front + [Spawned(n)];
        HelperStep(front, Spawned(n), n);
      }
    }
  }

  /** Starting a slot that has a helper starts it over. */
  lemma {:induction false} SpawnStartsOver(w: Worker, t: seq<Endpoint>, log: seq<Event>, k: nat)
    requires k < |t| && Startable(w, k, t[k]) && Helpers(log, k) > 0
    ensures exists j :: 0 <= j < |log + SpawnEvents(w, t)| && StartedOver(log + SpawnEvents(w, t), j, k)
    decreases |t|
  {
    var n := |t| - 1;
    var front, all := log + SpawnEvents(w, t[..n]), log + SpawnEvents(w, t);
    assert all == front + (if Startable(w, n, t[n]) then [Spawned(n)] else []);
    if k < n {
      assert t[..n][k] == t[k];
      SpawnStartsOver(w, t[..n], log, k);
      var j :| 0 <= j < |front| && StartedOver(front, j, k);
      assert all[..j] == front[..j] && all[j] == front[j];
      assert StartedOver(all, j, k);
    } else {
      FlagsAfterSpawns(w, t[..n], log, k);
      assert all[..|front|] == front && all[|front|] == Spawned(k);
      assert StartedOver(all, |front|, k);
    }
  }

  lemma {:induction false} FlagsAfterCloses(t: seq<Endpoint>, log: seq<Event>, k: nat)
    ensures Flagged(log + CloseEvents(t), k) == Flagged(log, k)
    ensures Helpers(log + CloseEvents(t), k) == Helpers(log, k)
    decreases |t|
  {
    if t == [] {
      assert log + CloseEvents(t) == log;
    } else {
      var n := |t| - 1;
      FlagsAfterCloses(t[..n], log, k);
      if t[n].fd.Some? {
        var e := Closed(n, t[n].fd.value);
        assert log + CloseEvents(t) == (log + CloseEvents(t[..n])) + [e];
        HelperStep(log + CloseEvents(t[..n]), e, k);
      }
    }
  }

  lemma {:induction false} ClosesAreTended(t: seq<Endpoint>, log: seq<Event>)
    requires Tended(log) && forall k :: 0 <= k < |t| ==> !Flagged(log, k)
    ensures Tended(log + CloseEvents(t))
    decreases |t|
  {
    if t == [] {
      assert log + CloseEvents(t) == log;
    } else {
      var n := |t| - 1;
      ClosesAreTended(t[..n], log);
      FlagsAfterCloses(t[..n], log, n);
      if t[n].fd.Some? {
        var e := Closed(n, t[n].fd.value);
        assert log + CloseEvents(t) == (log + CloseEvents(t[..n])) + [e];
        HelperStep(log + CloseEvents(t[..n]), e, n);
      }
    }
  }

  lemma {:induction false} FlagsAfterForgetting(t: seq<Endpoint>, log: seq<Event>, k: nat)
    ensures Flagged(log + ForgetEvents(t), k) == Flagged(log, k)
    ensures Helpers(log + ForgetEvents(t), k) == Helpers(log, k)
    ensures Tended(log + ForgetEvents(t)) <==> Tended(log)
    decreases |t|
  {
    if t == [] {
      assert log + ForgetEvents(t) == log;
    } else {
      var n := |t| - 1;
      FlagsAfterForgetting(t[..n], log, k);
      if t[n].fd.Some? {
        var e := Forgotten(t[n].fd.value);
        assert log + ForgetEvents(t) == (log + ForgetEvents(t[..n])) + [e];
        HelperStep(log + ForgetEvents(t[..n]), e, k);
      }
    }
  }

  // ---------------------------------------------------- request ids and bus events

  function LastId(log: seq<Event>): nat {
    if log == [] then 0
    else
      var e := log[|log| - 1];
      if Configures(e) then e.requestId else LastId(log[..|log| - 1])
  }

  predicate Configures(e: Event) {
    e.Sent? && e.kind == KIND_CONFIGURE
  }

  /** Each configuration request id exceeds the ones before it. */
  predicate IdsGrow(log: seq<Event>) {
    log == [] ||
    (var front, e := log[..|log| - 1], log[|log| - 1];
     IdsGrow(front) && (Configures(e) ==> e.requestId > LastId(front)))
  }

  predicate IsBus(e: Event) {
    e.Received? && e.record.kind == KIND_USB_BUS_EVENT && |e.record.body| == BUS_EVENT_BODY_LENGTH
  }

  /** A bus event other than suspend and resume. */
  predicate IsPower(e: Event) {
    IsBus(e) && e.record.body[0] != 5 && e.record.body[0] != 6
  }

  /** The body of the last bus event. */
  function LastBus(log: seq<Event>): (b: Option<seq<byte>>)
    ensures b.Some? ==> |b.value| == BUS_EVENT_BODY_LENGTH
  {
    if log == [] then None
    else
      var e := log[|log| - 1];
      if IsBus(e) then Some(e.record.body) else LastBus(log[..|log| - 1])
  }

  /** The kind of the last bus event other than suspend and resume. */
  function LastPower(log: seq<Event>): Option<byte> {
    if log == [] then None
    else
      var e := log[|log| - 1];
      if IsPower(e) then Some(e.record.body[0]) else LastPower(log[..|log| - 1])
  }

  /** A bus event that says whether the bus sleeps: enable, suspend or resume. */
  predicate IsSleep(e: Event) {
    IsBus(e) && (e.record.body[0] == 2 || e.record.body[0] == 5 || e.record.body[0] == 6)
  }

  /** The kind of the last such bus event. */
  function LastSleep(log: seq<Event>): Option<byte> {
    if log == [] then None
    else
      var e := log[|log| - 1];
      if IsSleep(e) then Some(e.record.body[0]) else LastSleep(log[..|log| - 1])
  }

  /** The same bus events were last heard. */
  predicate SameBus(a: seq<Event>, b: seq<Event>) {
    LastBus(b) == LastBus(a) && LastPower(b) == LastPower(a) && LastSleep(b) == LastSleep(a)
  }

  lemma HistoryStep(log: seq<Event>, e: Event)
    ensures IdsGrow(log + [e]) <==> IdsGrow(log) && (Configures(e) ==> e.requestId > LastId(log))
    ensures LastId(log + [e]) == if Configures(e) then e.requestId else LastId(log)
    ensures LastBus(log + [e]) == if IsBus(e) then Some(e.record.body) else LastBus(log)
    ensures LastPower(log + [e]) == if IsPower(e) then Some(e.record.body[0]) else LastPower(log)
    ensures LastSleep(log + [e]) == if IsSleep(e) then Some(e.record.body[0]) else LastSleep(log)
  {
    assert (log + [e])[..|log|] == log;
  }

  lemma {:induction false} HistoryAfterQuiet(log: seq<Event>, more: seq<Event>)
    requires forall i :: 0 <= i < |more| ==> !Configures(more[i]) && !IsBus(more[i])
    ensures (IdsGrow(log + more) <==> IdsGrow(log)) && LastId(log + more) == LastId(log)
    ensures SameBus(log, log + more)
    decreases |more|
  {
    if more == [] {
      assert log + more == log;
    } else {
      var front := more[..|more| - 1];
      HistoryAfterQuiet(log, front);
      assert log + more == (log + front) + [more[|more| - 1]];
      HistoryStep(log + front, more[|more| - 1]);
    }
  }

  lemma {:induction false} LastIdIsLargest(log: seq<Event>, i: nat)
    requires IdsGrow(log) && i < |log| && Configures(log[i])
    ensures 0 < log[i].requestId <= LastId(log)
  {
    if i < |log| - 1 {
      LastIdIsLargest(log[..|log| - 1], i);
    }
  }

  /** Configuration request ids are nonzero, strictly increasing, never reused. */
  lemma {:induction false} IdsStrictlyIncrease(log: seq<Event>, i: nat, j: nat)
    requires IdsGrow(log) && i < j < |log| && Configures(log[i]) && Configures(log[j])
    ensures 0 < log[i].requestId < log[j].requestId
  {
    var front := log[..|log| - 1];
    if j < |log| - 1 {
      IdsStrictlyIncrease(front, i, j);
    } else {
      LastIdIsLargest(front, i);
    }
  }

  lemma {:induction false} TableEventsAreQuiet(w: Worker, t: seq<Endpoint>)
    ensures forall i :: 0 <= i < |JoinEvents(w, t)| ==> JoinEvents(w, t)[i].Joined?
    ensures forall i :: 0 <= i < |SpawnEvents(w, t)| ==> SpawnEvents(w, t)[i].Spawned?
    ensures forall i :: 0 <= i < |CloseEvents(t)| ==> CloseEvents(t)[i].Closed?
    ensures forall i :: 0 <= i < |ForgetEvents(t)| ==> ForgetEvents(t)[i].Forgotten?
  {
    if t != [] {
      TableEventsAreQuiet(w, t[..|t| - 1]);
    }
  }
}
