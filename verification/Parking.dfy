/** The legacy worker's wait loops: bus events drive the timer and the display in
    step, the wait does not return to firmware while suspended, and usbFlush measures
    awake time in 32-bit arithmetic. */
module Parking {
  import opened Common
  import WorkerTimer
  import Display

  const INT_MAX := Display.INT_MAX
  const U32 := WorkerTimer.U32
  const U64 := WorkerTimer.U64

  /** worker_poll_timeout_ms: park for good while suspended, otherwise wait no longer
      than firmware asked for nor past the display's retry. */
  function PollTimeout(suspended: bool, firmware: nat, retry: int): (r: int)
    ensures r == -1 <==> suspended
    ensures !suspended ==> Longest(r, firmware, retry)
  {
    if suspended then -1
    else
      var timeout := if firmware > INT_MAX then INT_MAX else firmware;
      if 0 <= retry < timeout then retry else timeout
  }

  datatype BusEvent = Bind | Unbind | Enable | Disable | SuspendBus | ResumeBus

  /** The longest wait that neither `firmware` nor the display's retry nor C's int forbids. */
  predicate Longest(timeout: int, firmware: nat, retry: int) {
    && 0 <= timeout <= firmware && timeout <= INT_MAX && (retry >= 0 ==> timeout <= retry)
    && (timeout == firmware || timeout == INT_MAX || timeout == retry)
  }

  /** One poll of the controller: how long it took, which bus event came with it, and
      what the display backend answers should that event reach it. */
  datatype Wake = Wake(elapsed: nat, event: Option<BusEvent>, env: Display.Env)

  /** A poll as it was issued; `awake` is the awake time at that moment. */
  datatype PollCall = PollCall(timeout: int, suspended: bool, awake: nat, retry: int)

  function Total(wakes: seq<Wake>): nat {
    if wakes == [] then 0 else wakes[0].elapsed + Total(wakes[1..])
  }

  lemma {:induction false} ModDifference(a: nat, b: nat)
    requires a <= b
    ensures (b % U32 - a % U32) % U32 == (b - a) % U32 <= b - a
  {
    var qa, qb := a / U32, b / U32;
    assert a == qa * U32 + a % U32 && b == qb * U32 + b % U32;
    var d := b % U32 - a % U32;
    assert b - a == (qb - qa) * U32 + d;
    ModOfShift(d, qb - qa);
    assert (b - a) / U32 >= 0;
  }

  lemma {:induction false} ModOfShift(d: int, k: int)
    ensures (k * U32 + d) % U32 == d % U32
    decreases if k < 0 then -k else k
  {
    if k > 0 {
      ModOfShift(d, k - 1);
      assert k * U32 + d == ((k - 1) * U32 + d) + U32;
    } else if k < 0 {
      ModOfShift(d, k + 1);
      assert k * U32 + d == ((k + 1) * U32 + d) - U32;
    }
  }

  /** A display retry is pending and its time has come. */
  predicate DueAt(d: Display.State, env: Display.Env) {
    !d.suspended && d.last.Some? && !d.live && 0 < d.retryAfter <= env.checked <= env.now
  }

  lemma DueRetry(d: Display.State, env: Display.Env)
    requires DueAt(d, env)
    ensures Display.Tried(d, Display.Poll(d, env), env.now)
  {
    Display.WriteLastTries(d, env);
  }

  /** From the n-th poll on, no timed poll outlasts what was left of `millis` at its
      start, counted from awake time `since`, nor the display's retry. */
  ghost predicate WithinFlush(polls: seq<PollCall>, n: nat, since: nat, millis: nat) {
    forall i :: n <= i < |polls| && polls[i].timeout > 0 ==>
      && polls[i].timeout <= millis - (polls[i].awake - since) % U32
      && (polls[i].retry >= 0 ==> polls[i].timeout <= polls[i].retry)
  }

  lemma CallKeepsTime(calls: seq<WorkerTimer.Call>, c: WorkerTimer.Call)
    requires WorkerTimer.Timely(calls, c.raw)
    ensures var more := calls + [c];
      && WorkerTimer.Timely(more, c.raw) && WorkerTimer.Run(more) == WorkerTimer.Apply(WorkerTimer.Run(calls), c)
      && WorkerTimer.AwakeMs(more, c.raw) == WorkerTimer.AwakeMs(calls, c.raw)
  {
    assert (calls + [c])[..|calls|] == calls;
    WorkerTimer.AwakeBefore(calls, c, c.raw);
  }

  class Platform {
    var raw: nat                        // CLOCK_MONOTONIC in milliseconds
    var timer: WorkerTimer.Timer
    var display: Display.State
    ghost var calls: seq<WorkerTimer.Call>
    ghost var polls: seq<PollCall>

    /** The timer is what its history makes it, and both modules agree on suspension. */
    ghost predicate Valid()
      reads this
    {
      && timer == WorkerTimer.Run(calls) && WorkerTimer.Timely(calls, raw)
      && timer.suspended == display.suspended
    }

    /** Milliseconds of awake time so far. */
    ghost function Awake(): nat
      reads this
    {
      WorkerTimer.AwakeMs(calls, raw)
    }

    constructor (raw: nat)
      requires raw < U64
      ensures Valid() && this.raw == raw && polls == [] && !timer.suspended
    {
      this.raw, timer, display, calls, polls := raw, WorkerTimer.Start(), Display.Start(), [], [];
    }

    /** worker_timer_resume, then worker_display_resume. */
    method ResumeWorker(env: Display.Env)
      requires Valid()
      modifies this`timer, this`display, this`calls
      ensures Valid() && Awake() == old(Awake()) && !timer.suspended
      ensures display == Display.Resume(old(display), env)
    {
      CallKeepsTime(calls, WorkerTimer.ResumeAt(raw));
      timer, calls := WorkerTimer.Resume(timer, raw), calls + [WorkerTimer.ResumeAt(raw)];
      display := Display.Resume(display, env);
    }

    /** worker_timer_suspend, then worker_display_suspend. */
    method SuspendWorker()
      requires Valid()
      modifies this`timer, this`display, this`calls
      ensures Valid() && Awake() == old(Awake()) && timer.suspended
      ensures display == Display.Suspend(old(display))
    {
      CallKeepsTime(calls, WorkerTimer.SuspendAt(raw));
      timer, calls := WorkerTimer.Suspend(timer, raw), calls + [WorkerTimer.SuspendAt(raw)];
      display := Display.Suspend(display);
    }

    /** handle_usb_bus_event as far as time and the panel are concerned. */
    method HandleBusEvent(e: BusEvent, env: Display.Env)
      requires Valid()
      modifies this`timer, this`display, this`calls
      ensures Valid() && Awake() == old(Awake())
      ensures e.Enable? || e.ResumeBus? ==> !timer.suspended && display == Display.Resume(old(display), env)
      ensures e.SuspendBus? ==> timer.suspended && display == Display.Suspend(old(display))
      ensures e.Bind? || e.Unbind? || e.Disable? ==> timer == old(timer) && display == old(display)
    {
      match e {
        case Enable => ResumeWorker(env);
        case ResumeBus => ResumeWorker(env);
        case SuspendBus => SuspendWorker();
        case _ =>
      }
    }

    /** service_virtual_usb: one poll, then at most one record. */
    method Service(timeout: int, retry: int, wake: Wake)
      requires Valid() && raw + wake.elapsed < U64
      modifies this
      ensures Valid() && raw == old(raw) + wake.elapsed
      ensures Awake() == old(Awake()) + (if old(timer.suspended) then 0 else wake.elapsed)
      ensures polls == old(polls) + [PollCall(timeout, old(timer.suspended), old(Awake()), retry)]
      ensures old(display.log) <= display.log
    {
      polls := polls + [PollCall(timeout, timer.suspended, Awake(), retry)];
      ghost var before := raw;
      raw := raw + wake.elapsed;
      WorkerTimer.ValueAdvances(calls, before, raw);
      WorkerTimer.ValueIsAwakeTime(calls, before);
      WorkerTimer.ValueIsAwakeTime(calls, raw);
      if wake.event.Some? {
        Display.LogOnlyGrows(display, wake.env);
        HandleBusEvent(wake.event.value, wake.env);
      }
    }

    /** service_virtual_usb_until_resumed. It comes back only when not suspended; only
        its first poll can be a timed one, and that one waits as long as firmware and the
        display's retry allow. Without more wakes it is still parked. */
    method ServiceUntilResumed(firmware: nat, wakes: seq<Wake>) returns (done: bool, rest: seq<Wake>)
      requires Valid() && raw + Total(wakes) < U64
      modifies this
      ensures Valid() && raw + Total(rest) == old(raw) + Total(wakes)
      ensures done ==> !timer.suspended && |rest| < |wakes|
      ensures Awake() >= old(Awake())
      ensures old(polls) <= polls
      ensures forall i :: |old(polls)| <= i < |polls| ==>
        && (polls[i].timeout == -1 <==> polls[i].suspended)
        && (!polls[i].suspended ==>
              && i == |old(polls)| && polls[i].awake == old(Awake())
              && polls[i].retry == old(Display.RetryTimeout(display, raw))
              && Longest(polls[i].timeout, firmware, polls[i].retry))
      ensures wakes != [] ==> |polls| > |old(polls)| && polls[|old(polls)|].suspended == old(timer.suspended)
      ensures old(display.log) <= display.log && (wakes == [] ==> display == old(display))
    {
      rest := wakes;
      while true
        invariant Valid() && raw + Total(rest) == old(raw) + Total(wakes) && |rest| <= |wakes|
        invariant Awake() >= old(Awake()) && old(polls) <= polls
        invariant |polls| == |old(polls)| ==>
          && Awake() == old(Awake()) && rest == wakes && raw == old(raw)
          && display == old(display) && timer.suspended == old(timer.suspended)
        invariant |polls| > |old(polls)| ==>
          timer.suspended && |rest| < |wakes| && polls[|old(polls)|].suspended == old(timer.suspended)
        invariant old(display.log) <= display.log
        invariant forall i :: |old(polls)| <= i < |polls| ==>
          && (polls[i].timeout == -1 <==> polls[i].suspended)
          && (!polls[i].suspended ==>
                && i == |old(polls)| && polls[i].awake == old(Awake())
                && polls[i].retry == old(Display.RetryTimeout(display, raw))
                && Longest(polls[i].timeout, firmware, polls[i].retry))
        decreases |rest|
      {
        if rest == [] {
          return false, rest;
        }
        var retry := Display.RetryTimeout(display, raw);
        var timeout := PollTimeout(timer.suspended, firmware, retry);
        Service(timeout, retry, rest[0]);
        rest := rest[1..];
        if !timer.suspended {
          return true, rest;
        }
      }
    }

    /** waitAndProcessUSBRequests up to the output flush: emulatorPoll, which makes a display
        retry that is due, then the wait. The first poll is the timed one, with the retry that
        emulatorPoll has left. */
    method WaitAndProcess(millis: nat, env: Display.Env, wakes: seq<Wake>) returns (done: bool, rest: seq<Wake>)
      requires Valid() && raw + Total(wakes) < U64
      modifies this
      ensures Valid() && (done ==> !timer.suspended && !display.suspended)
      ensures raw + Total(rest) == old(raw) + Total(wakes)
      ensures old(DueAt(display, env)) ==>
        |old(display.log)| < |display.log| && display.log[|old(display.log)|] == Display.Attempt(env.now)
      ensures wakes == [] ==> display == Display.Poll(old(display), env)
      ensures old(polls) <= polls && (wakes != [] ==> |polls| > |old(polls)|)
      ensures wakes != [] ==> var p := polls[|old(polls)|];
        && p.suspended == old(timer.suspended) && (p.suspended ==> p.timeout == -1)
        && (!p.suspended ==>
              && p.retry == Display.RetryTimeout(Display.Poll(old(display), env), old(raw))
              && Longest(p.timeout, millis, p.retry))
    {
      if DueAt(display, env) {
        DueRetry(display, env);
      }
      display := Display.Poll(display, env);
      done, rest := ServiceUntilResumed(millis, wakes);
    }

    /** firmwareUsbPoll as far as the controller is concerned: firmware's code polls it any
        number of times, without waiting. */
    method FirmwareUsbPoll(times: nat, wakes: seq<Wake>) returns (rest: seq<Wake>)
      requires Valid() && times <= |wakes| && raw + Total(wakes) < U64
      modifies this
      ensures Valid() && raw + Total(rest) == old(raw) + Total(wakes) && Awake() >= old(Awake())
      ensures old(polls) <= polls && |polls| == |old(polls)| + times
      ensures forall i :: |old(polls)| <= i < |polls| ==> polls[i].timeout == 0
    {
      rest := wakes;
      for i := 0 to times
        invariant Valid() && |rest| == |wakes| - i && raw + Total(rest) == old(raw) + Total(wakes)
        invariant Awake() >= old(Awake()) && old(polls) <= polls && |polls| == |old(polls)| + i
        invariant forall i :: |old(polls)| <= i < |polls| ==> polls[i].timeout == 0
      {
        Service(0, -1, rest[0]);
        rest := rest[1..];
      }
    }

    /** One round of usbFlush up to its check: firmwareUsbPoll, then the elapsed time. */
    method FlushPoll(start: nat, times: nat, wakes: seq<Wake>, ghost since: nat) returns (elapsed: nat, rest: seq<Wake>)
      requires Valid() && times <= |wakes| && raw + Total(wakes) < U64 && since <= Awake() && start == since % U32
      modifies this
      ensures Valid() && raw + Total(rest) == old(raw) + Total(wakes) && Awake() >= old(Awake())
      ensures elapsed == (Awake() - since) % U32 <= Awake() - since
      ensures old(polls) <= polls && forall i :: |old(polls)| <= i < |polls| ==> polls[i].timeout == 0
    {
      rest := FirmwareUsbPoll(times, wakes);
      WorkerTimer.ValueIsAwakeTime(calls, raw);
      ModDifference(since, Awake());
      elapsed := (WorkerTimer.TimerMs(timer, raw) - start) % U32;
    }

    /** usbFlush; `visits` says how often firmware polls in each of its rounds. When it
        returns, at least `millis` of awake time have passed since the call, whatever the
        32-bit counter did; no timed poll it issues outlasts what was left of `millis` at
        that moment or the display's retry. */
    method UsbFlush(millis: nat, visits: seq<nat>, wakes: seq<Wake>) returns (done: bool, rest: seq<Wake>)
      requires Valid() && millis < U32 && raw + Total(wakes) < U64
      modifies this
      ensures Valid() && raw + Total(rest) == old(raw) + Total(wakes)
      ensures done ==> Awake() >= old(Awake()) + millis
      ensures old(polls) <= polls
      ensures WithinFlush(polls, |old(polls)|, old(Awake()), millis)
    {
      rest := wakes;
      var start := WorkerTimer.TimerMs(timer, raw);
      WorkerTimer.ValueIsAwakeTime(calls, raw);
      for round := 0 to |visits|
        invariant Valid() && raw + Total(rest) == old(raw) + Total(wakes)
        invariant Awake() >= old(Awake()) && old(polls) <= polls
        invariant WithinFlush(polls, |old(polls)|, old(Awake()), millis)
      {
        if visits[round] > |rest| {
          return false, rest;
        }
        var elapsed;
        elapsed, rest := FlushPoll(start, visits[round], rest, old(Awake()));
        if elapsed >= millis {
          return true, rest;
        }
        var resumed;
        resumed, rest := ServiceUntilResumed(millis - elapsed, rest);
        if !resumed {
          return false, rest;
        }
      }
      return false, rest;
    }
  }
}
