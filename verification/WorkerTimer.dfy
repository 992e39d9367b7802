/** Firmware time of the legacy worker: CLOCK_MONOTONIC with suspended intervals
    left out, in the 64-bit arithmetic of timer_linux.h. */
module WorkerTimer {
  const U64 := 0x1_0000_0000_0000_0000
  const U32 := 0x1_0000_0000

  datatype Timer = Timer(suspendedAt: nat, total: nat, suspended: bool)

  function Sub64(a: int, b: int): nat {
    (a - b) % U64
  }

  function Start(): Timer {
    Timer(0, 0, false)
  }

  function Suspend(t: Timer, raw: nat): Timer {
    if t.suspended then t else t.(suspendedAt := raw, suspended := true)
  }

  function Resume(t: Timer, raw: nat): Timer {
    if !t.suspended then t else t.(total := (t.total + Sub64(raw, t.suspendedAt)) % U64, suspended := false)
  }

  function Value(t: Timer, raw: nat): nat {
    Sub64(if t.suspended then t.suspendedAt else raw, t.total)
  }

  /** timer_ms */
  function TimerMs(t: Timer, raw: nat): nat {
    Value(t, raw) % U32
  }

  // ------------------------------------------------------------------- histories

  /** A call of worker_timer_suspend or worker_timer_resume at a raw time. */
  datatype Call = SuspendAt(raw: nat) | ResumeAt(raw: nat)

  function Apply(t: Timer, c: Call): Timer {
    match c
    case SuspendAt(raw) => Suspend(t, raw)
    case ResumeAt(raw) => Resume(t, raw)
  }

  function Run(calls: seq<Call>): Timer {
    if calls == [] then Start() else Apply(Run(calls[..|calls| - 1]), calls[|calls| - 1])
  }

  /** Raw times never run backwards and stay below the 64-bit horizon. */
  predicate Timely(calls: seq<Call>, now: nat) {
    && now < U64
    && (forall i :: 0 <= i < |calls| ==> calls[i].raw <= now)
    && (forall i, j :: 0 <= i < j < |calls| ==> calls[i].raw <= calls[j].raw)
  }

  /** Whether millisecond `ms` is spent suspended: the last call up to its beginning
      was a suspend. Says nothing about totals or about repeated calls. */
  predicate SuspendedDuring(calls: seq<Call>, ms: nat) {
    calls != [] &&
    var c := calls[|calls| - 1];
    if c.raw <= ms then c.SuspendAt? else SuspendedDuring(calls[..|calls| - 1], ms)
  }

  /** The number of milliseconds before `n` that were not spent suspended. */
  function AwakeMs(calls: seq<Call>, n: nat): nat {
    if n == 0 then 0 else AwakeMs(calls, n - 1) + (if SuspendedDuring(calls, n - 1) then 0 else 1)
  }

  lemma {:induction false} AwakeSplit(calls: seq<Call>, c: Call, now: nat)
    requires c.raw <= now
    ensures AwakeMs(calls + [c], now) == AwakeMs(calls, c.raw) + (if c.SuspendAt? then 0 else now - c.raw)
    decreases now
  {
    assert (calls + [c])[..|calls|] == calls;
    if now > c.raw {
      AwakeSplit(calls, c, now - 1);
    } else {
      AwakeBefore(calls, c, now);
    }
  }

  lemma {:induction false} AwakeBefore(calls: seq<Call>, c: Call, n: nat)
    requires n <= c.raw
    ensures AwakeMs(calls + [c], n) == AwakeMs(calls, n)
  {
    assert (calls + [c])[..|calls|] == calls;
    if n > 0 {
      AwakeBefore(calls, c, n - 1);
    }
  }

  /** The fields, in terms of the history. */
  lemma {:induction false} TimerFields(calls: seq<Call>, now: nat)
    requires Timely(calls, now)
    ensures var t := Run(calls);
      && (t.suspended <==> calls != [] && calls[|calls| - 1].SuspendAt?)
      && (t.suspended ==> t.total <= t.suspendedAt <= now && t.suspendedAt - t.total == AwakeMs(calls, now))
      && (!t.suspended ==> t.total <= now && now - t.total == AwakeMs(calls, now))
  {
    if calls == [] {
      NothingSuspended(now);
    } else {
      var front, c := calls[..|calls| - 1], calls[|calls| - 1];
      assert calls == front + [c];
      TimerFields(front, c.raw);
      AwakeSplit(front, c, now);
    }
  }

  lemma {:induction false} NothingSuspended(n: nat)
    ensures AwakeMs([], n) == n
  {
    if n > 0 {
      NothingSuspended(n - 1);
    }
  }

  /** Virtual time is awake time: whatever suspends and resumes came, in whatever
      repetition, the value is the number of milliseconds not spent suspended, and timer_ms
      its low 32 bits. */
  lemma ValueIsAwakeTime(calls: seq<Call>, now: nat)
    requires Timely(calls, now)
    ensures Value(Run(calls), now) == AwakeMs(calls, now)
    ensures TimerMs(Run(calls), now) == AwakeMs(calls, now) % 0x1_0000_0000
  {
    TimerFields(calls, now);
  }

  /** Between two readings with no call in between, time stands still or advances with
      the raw clock, depending on whether the worker is suspended. */
  lemma ValueAdvances(calls: seq<Call>, a: nat, b: nat)
    requires a <= b && Timely(calls, a) && b < U64
    ensures Value(Run(calls), b) == Value(Run(calls), a) + (if Run(calls).suspended then 0 else b - a)
  {
    TimerFields(calls, a);
    TimerFields(calls, b);
  }

  lemma ApplyIsContinuous(t: Timer, c: Call)
    requires c.raw < U64 && t.total <= (if t.suspended then t.suspendedAt else c.raw) <= c.raw
    ensures Value(Apply(t, c), c.raw) == Value(t, c.raw)
  {}

  /** A suspend or a resume is no jump, so a deadline keeps the duration it had left. */
  lemma {:induction false} ValueIsContinuous(calls: seq<Call>, c: Call)
    requires Timely(calls, c.raw)
    ensures Value(Run(calls + [c]), c.raw) == Value(Run(calls), c.raw)
  {
    var all := calls + [c];
    assert all[..|calls|] == calls && Run(all) == Apply(Run(calls), c);
    TimerFields(calls, c.raw);
    ApplyIsContinuous(Run(calls), c);
  }

  /** Later readings are never smaller, across any further calls, and differ by at most
      the raw time that passed. */
  lemma {:induction false} ValueIsMonotone(calls: seq<Call>, more: seq<Call>, a: nat, b: nat)
    requires Timely(calls, a) && Timely(calls + more, b)
    requires a <= b && forall i :: 0 <= i < |more| ==> a <= more[i].raw
    ensures Value(Run(calls), a) <= Value(Run(calls + more), b) <= Value(Run(calls), a) + b - a
    decreases |more|
  {
    if more == [] {
      assert calls + more == calls;
      ValueAdvances(calls, a, b);
    } else {
      var front, c := more[..|more| - 1], more[|more| - 1];
      var all := calls + more;
      assert all == (calls + front) + [c] && all[|all| - 1] == c;
      assert forall i :: 0 <= i < |calls + front| ==> (calls + front)[i] == all[i];
      assert Timely(calls + front, c.raw);
      assert c == more[|more| - 1] && a <= c.raw;
      ValueIsMonotone(calls, front, a, c.raw);
      ValueIsContinuous(calls + front, c);
      ValueAdvances(calls + more, c.raw, b);
    }
  }

  // ------------------------------------------------------------- the C code itself

  class TimerState {
    var suspendedAt: nat
    var total: nat
    var suspended: bool

    ghost function View(): Timer
      reads this
    {
      Timer(suspendedAt, total, suspended)
    }

    /** worker_timer_state_init */
    constructor ()
      ensures View() == Start()
    {
      suspendedAt, total, suspended := 0, 0, false;
    }

    /** worker_timer_state_suspend */
    method SuspendNow(raw: nat)
      modifies this
      ensures View() == Suspend(old(View()), raw)
    {
      if suspended {
        return;
      }
      suspendedAt := raw;
      suspended := true;
    }

    /** worker_timer_state_resume */
    method ResumeNow(raw: nat)
      modifies this
      ensures View() == Resume(old(View()), raw)
    {
      if !suspended {
        return;
      }
      total := (total + Sub64(raw, suspendedAt)) % U64;
      suspended := false;
    }

    /** worker_timer_state_value, and its truncation in timer_ms. */
    method Read(raw: nat) returns (value: nat, ms: nat)
      ensures value == Value(View(), raw) && ms == TimerMs(View(), raw)
    {
      var effective := if suspended then suspendedAt else raw;
      value := Sub64(effective, total);
      ms := value % U32;
    }
  }
}
