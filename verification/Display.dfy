/** The legacy display driver: retry after failures, blank on suspend, and never
    forget the last submitted frame. */
module Display {
  import opened Common

  const RETRY_DELAY_MS := 1000
  const INT_MAX := 0x7FFF_FFFF

  /** What worker_display_write_frame remembers: geometry and a pointer, not a copy. */
  datatype Frame = Frame(format: nat, width: nat, height: nat, stride: nat, buffer: nat, length: nat)

  /** What the world answers during one call: the readings of monotonic_ms in program
      order, the results of the backend, and the frame buffers as they stand. */
  datatype Env = Env(
    checked: nat,             // emulatorPoll's reading
    now: nat,                 // initialize_display's reading
    failed: nat,              // report_error's reading
    createOk: bool,
    writeOk: bool,
    memory: map<nat, seq<byte>>)

  datatype Event =
    | Attempt(at: nat)                        // display_backends_create called
    | Failure(at: nat)                        // report_error
    | Shown(frame: Frame, bytes: seq<byte>)   // the panel took a frame
    | Blanked
    | Resumed

  datatype State = State(
    live: bool,
    errorReported: bool,
    suspended: bool,
    retryAfter: nat,          // 0: no retry pending
    last: Option<Frame>,
    log: seq<Event>)

  function Start(): State {
    State(false, false, false, 0, None, [])
  }

  function Content(f: Frame, env: Env): seq<byte> {
    if f.buffer in env.memory then env.memory[f.buffer] else []
  }

  function ReportError(d: State, env: Env): State {
    d.(live := false, errorReported := true, retryAfter := env.failed + RETRY_DELAY_MS,
       log := d.log + [Failure(env.failed)])
  }

  function Initialize(d: State, env: Env): State {
    if d.retryAfter != 0 && env.now < d.retryAfter then d
    else
      var tried := d.(log := d.log + [Attempt(env.now)]);
      if env.createOk then tried.(live := true, errorReported := false, retryAfter := 0)
      else ReportError(tried, env)
  }

  /** The backend is given the frame. */
  function Show(d: State, f: Frame, env: Env): State {
    if env.writeOk then d.(log := d.log + [Shown(f, Content(f, env))]) else ReportError(d, env)
  }

  function WriteLast(d: State, env: Env): State {
    if d.suspended || d.last.None? then d
    else
      var e := if d.live then d else Initialize(d, env);
      if e.live then Show(e, d.last.value, env) else e
  }

  function Submit(d: State, f: Frame, env: Env): State {
    WriteLast(d.(last := Some(f)), env)
  }

  function Shutdown(d: State): State {
    if d.live then d.(suspended := true, live := false, log := d.log + [Blanked]) else d.(suspended := true)
  }

  function Suspend(d: State): State {
    if d.suspended then d else Shutdown(d)
  }

  function Resume(d: State, env: Env): State {
    if !d.suspended then d
    else WriteLast(d.(suspended := false, retryAfter := 0, log := d.log + [Resumed]), env)
  }

  /** emulatorPoll */
  function Poll(d: State, env: Env): State {
    if d.live || d.retryAfter == 0 || env.checked < d.retryAfter then d else WriteLast(d, env)
  }

  /** worker_display_retry_timeout_ms: how long poll may sleep for the display's sake. */
  function RetryTimeout(d: State, now: nat): (r: int)
    ensures r == -1 <==> d.retryAfter == 0
    ensures r >= 0 ==> now + r <= (if now < d.retryAfter then d.retryAfter else now)
    ensures d.retryAfter != 0 && r < INT_MAX ==> now + r >= d.retryAfter
    ensures -1 <= r <= INT_MAX
  {
    if d.retryAfter == 0 then -1
    else if now >= d.retryAfter then 0
    else if d.retryAfter - now > INT_MAX then INT_MAX
    else d.retryAfter - now
  }

  /** Whatever a call does is added to the log. */
  lemma LogOnlyGrows(d: State, env: Env)
    ensures d.log <= WriteLast(d, env).log
    ensures d.log <= Resume(d, env).log && d.log <= Suspend(d).log && d.log <= Poll(d, env).log
  {
    var resumed := d.(suspended := false, retryAfter := 0, log := d.log + [Resumed]);
    WriteOnlyAdds(d, env);
    WriteOnlyAdds(resumed, env);
    assert d.log <= resumed.log;
  }

  lemma WriteOnlyAdds(d: State, env: Env)
    ensures d.log <= WriteLast(d, env).log
  {
    if !d.suspended && d.last.Some? && !d.live {
      var e := Initialize(d, env);
      assert d.log <= d.log + [Attempt(env.now)] <= e.log || e == d;
    }
  }

  // ------------------------------------------------------------------- histories

  datatype Op = OpSubmit(frame: Frame) | OpSuspend | OpResume | OpShutdown | OpPoll

  datatype Call = Call(op: Op, env: Env)

  function Apply(d: State, c: Call): State {
    match c.op
    case OpSubmit(f) => Submit(d, f, c.env)
    case OpSuspend => Suspend(d)
    case OpResume => Resume(d, c.env)
    case OpShutdown => Shutdown(d)
    case OpPoll => Poll(d, c.env)
  }

  function Run(calls: seq<Call>): State {
    if calls == [] then Start() else Apply(Run(calls[..|calls| - 1]), calls[|calls| - 1])
  }

  /** The monotonic clock never runs backwards, within a call or from call to call. */
  predicate Chronological(calls: seq<Call>) {
    && (forall i :: 0 <= i < |calls| ==> calls[i].env.checked <= calls[i].env.now <= calls[i].env.failed)
    && (forall i, j :: 0 <= i < j < |calls| ==> calls[i].env.failed <= calls[j].env.checked)
  }

  /** The frame and the bytes the panel is known to show. */
  function Panel(log: seq<Event>): Option<(Frame, seq<byte>)> {
    if log == [] then None
    else
      match log[|log| - 1]
      case Shown(f, bytes) => Some((f, bytes))
      case Failure(_) => None
      case Blanked => None
      case _ => Panel(log[..|log| - 1])
  }

  /** The time of the latest failure since the last resume. */
  function LatestFailure(log: seq<Event>): Option<nat> {
    if log == [] then None
    else
      match log[|log| - 1]
      case Resumed => None
      case Failure(at) => Some(at)
      case _ => LatestFailure(log[..|log| - 1])
  }

  /** No attempt within the delay after a failure, and failures in order. */
  predicate Spaced(log: seq<Event>) {
    log == [] ||
    (var front, e := log[..|log| - 1], log[|log| - 1];
     var f := LatestFailure(front);
     Spaced(front)
     && (e.Attempt? && f.Some? ==> e.at >= f.value + RETRY_DELAY_MS)
     && (e.Failure? && f.Some? ==> e.at >= f.value))
  }

  /** The bookkeeping that the retry delay rests on, at clock reading `now`. */
  predicate Recovering(d: State, now: nat) {
    && Spaced(d.log)
    && (LatestFailure(d.log).Some? ==> LatestFailure(d.log).value <= now)
    && (!d.suspended && !d.live && LatestFailure(d.log).Some? ==>
          d.retryAfter >= LatestFailure(d.log).value + RETRY_DELAY_MS)
  }

  /** A live handle shows the last frame; without one nothing is shown, and a retry is
      scheduled. */
  predicate Faithful(d: State) {
    && (d.live ==> !d.suspended && d.retryAfter == 0)
    && (d.live ==> d.last.Some? && Panel(d.log).Some? && Panel(d.log).value.0 == d.last.value)
    && (!d.live ==> Panel(d.log).None?)
    && (!d.suspended && d.last.Some? ==> d.live || d.retryAfter != 0)
  }

  lemma LogGrows(log: seq<Event>, e: Event)
    ensures Panel(log + [e]) ==
      (match e case Shown(f, bytes) => Some((f, bytes)) case Failure(_) => None case Blanked => None
               case _ => Panel(log))
    ensures LatestFailure(log + [e]) ==
      (match e case Resumed => None case Failure(at) => Some(at) case _ => LatestFailure(log))
    ensures Spaced(log + [e]) <==>
      && Spaced(log)
      && (e.Attempt? && LatestFailure(log).Some? ==> e.at >= LatestFailure(log).value + RETRY_DELAY_MS)
      && (e.Failure? && LatestFailure(log).Some? ==> e.at >= LatestFailure(log).value)
  {
    assert (log + [e])[..|log|] == log;
  }

  lemma ReportErrorKeeps(d: State, env: Env, now: nat)
    requires Spaced(d.log) && !d.suspended && now <= env.failed
    requires LatestFailure(d.log).Some? ==> LatestFailure(d.log).value <= now
    ensures Recovering(ReportError(d, env), env.failed)
    ensures Faithful(ReportError(d, env))
  {
    LogGrows(d.log, Failure(env.failed));
  }

  lemma ShowKeeps(d: State, f: Frame, env: Env, now: nat)
    requires Spaced(d.log) && d.live && !d.suspended && d.retryAfter == 0 && d.last == Some(f) && now <= env.failed
    requires LatestFailure(d.log).Some? ==> LatestFailure(d.log).value <= now
    ensures Recovering(Show(d, f, env), env.failed) && Faithful(Show(d, f, env))
  {
    LogGrows(d.log, Shown(f, Content(f, env)));
    ReportErrorKeeps(d, env, now);
  }

  lemma InitializeKeeps(d: State, env: Env, now: nat)
    requires Recovering(d, now) && !d.live && !d.suspended && now <= env.now <= env.failed && Panel(d.log).None?
    ensures var e := Initialize(d, env);
      && Spaced(e.log) && e.last == d.last && !e.suspended && (e.live ==> e.retryAfter == 0)
      && (LatestFailure(e.log).Some? ==> LatestFailure(e.log).value <= env.failed)
      && (!e.live ==> Recovering(e, env.failed) && e.retryAfter != 0 && Panel(e.log).None?)
  {
    if d.retryAfter == 0 || env.now >= d.retryAfter {
      LogGrows(d.log, Attempt(env.now));
      ReportErrorKeeps(d.(log := d.log + [Attempt(env.now)]), env, now);
    }
  }

  lemma WriteLastKeeps(d: State, env: Env, now: nat)
    requires Recovering(d, now) && now <= env.checked <= env.now <= env.failed
    requires if d.live then !d.suspended && d.retryAfter == 0 && d.last.Some? else Panel(d.log).None?
    ensures Recovering(WriteLast(d, env), env.failed) && Faithful(WriteLast(d, env))
  {
    if !d.suspended && d.last.Some? {
      if d.live {
        ShowKeeps(d, d.last.value, env, now);
        assert WriteLast(d, env) == Show(d, d.last.value, env);
      } else {
        InitializeKeeps(d, env, now);
        var e := Initialize(d, env);
        if e.live {
          ShowKeeps(e, d.last.value, env, env.failed);
          assert WriteLast(d, env) == Show(e, d.last.value, env);
        } else {
          assert WriteLast(d, env) == e;
        }
      }
    }
  }

  lemma ApplyKeeps(d: State, c: Call, now: nat)
    requires Recovering(d, now) && Faithful(d)
    requires now <= c.env.checked <= c.env.now <= c.env.failed
    ensures Recovering(Apply(d, c), c.env.failed) && Faithful(Apply(d, c))
  {
    match c.op
    case OpSubmit(f) => WriteLastKeeps(d.(last := Some(f)), c.env, now);
    case OpSuspend => LogGrows(d.log, Blanked);
    case OpShutdown => LogGrows(d.log, Blanked);
    case OpPoll => WriteLastKeeps(d, c.env, now);
    case OpResume =>
      LogGrows(d.log, Resumed);
      WriteLastKeeps(d.(suspended := false, retryAfter := 0, log := d.log + [Resumed]), c.env, now);
  }

  lemma {:induction false} EveryRunKeeps(calls: seq<Call>)
    requires Chronological(calls)
    ensures Faithful(Run(calls))
    ensures Recovering(Run(calls), if calls == [] then 0 else calls[|calls| - 1].env.failed)
  {
    if calls != [] {
      var front, c := calls[..|calls| - 1], calls[|calls| - 1];
      EveryRunKeeps(front);
      ApplyKeeps(Run(front), c, if front == [] then 0 else front[|front| - 1].env.failed);
    }
  }

  /** Display recovery over all runs: a live handle implies that the panel last took the
      most recently submitted frame; an unsuspended driver with a frame always has a
      live handle or a scheduled retry. */
  lemma {:induction false} NoFrameIsForgotten(calls: seq<Call>)
    requires Chronological(calls)
    ensures var d := Run(calls);
      && (d.live ==> !d.suspended && d.retryAfter == 0)
      && (d.live ==> d.last.Some? && Panel(d.log).Some? && Panel(d.log).value.0 == d.last.value)
      && (!d.live ==> Panel(d.log).None?)
      && (!d.suspended && d.last.Some? ==> d.live || d.retryAfter != 0)
  {
    EveryRunKeeps(calls);
  }

  // ------------------------------------------------------------------- progress

  /** The call that led from `d` to `e` asked for a backend at time `at`. */
  predicate Tried(d: State, e: State, at: nat) {
    |d.log| < |e.log| && e.log[..|d.log|] == d.log && e.log[|d.log|] == Attempt(at)
  }

  /** The last frame is on the panel, as its buffer stands. */
  predicate Displayed(d: State, env: Env) {
    d.live && d.last.Some? && Panel(d.log) == Some((d.last.value, Content(d.last.value, env)))
  }

  /** An attempt has failed and the next one is a second away. */
  predicate Rescheduled(d: State, env: Env) {
    !d.live && Panel(d.log).None? && d.retryAfter == env.failed + 1000
  }

  /** Showing the last frame from any state in which it may be shown: a backend is asked for
      exactly when there is none and no deadline lies ahead, and then backend and panel
      decide whether the frame is displayed or the next attempt scheduled. */
  lemma WriteLastTries(d: State, env: Env)
    requires !d.suspended && d.last.Some? && (d.live ==> d.retryAfter == 0)
    ensures var e := WriteLast(d, env);
      var tries := env.now >= d.retryAfter;
      && e.last == d.last && !e.suspended
      && (!tries ==> e == d)
      && (!d.live && tries ==> Tried(d, e, env.now))
      && (tries ==> if (d.live || env.createOk) && env.writeOk then Displayed(e, env) else Rescheduled(e, env))
  {
    var tried := d.(log := d.log + [Attempt(env.now)]);
    assert tried.log[..|d.log|] == d.log;
    if !d.live && env.now >= d.retryAfter {
      BackendDecides(tried, d, env);
    } else if d.live {
      PanelDecides(d, env);
    }
  }

  lemma PanelDecides(d: State, env: Env)
    requires d.live && d.last.Some?
    ensures var e := Show(d, d.last.value, env);
      && |d.log| < |e.log| && e.log[..|d.log|] == d.log && e.last == d.last && e.suspended == d.suspended
      && if env.writeOk then Displayed(e, env) else Rescheduled(e, env)
  {
    LogGrows(d.log, Shown(d.last.value, Content(d.last.value, env)));
    LogGrows(d.log, Failure(env.failed));
  }

  lemma BackendDecides(tried: State, d: State, env: Env)
    requires !d.suspended && d.last.Some? && !d.live && env.now >= d.retryAfter
    requires tried == d.(log := d.log + [Attempt(env.now)])
    ensures var e := WriteLast(d, env);
      && |tried.log| <= |e.log| && e.log[..|tried.log|] == tried.log && e.last == d.last && !e.suspended
      && if env.createOk && env.writeOk then Displayed(e, env) else Rescheduled(e, env)
  {
    if env.createOk {
      PanelDecides(tried.(live := true, errorReported := false, retryAfter := 0), env);
    } else {
      LogGrows(tried.log, Failure(env.failed));
    }
  }

  /** A retry that is due is made. In every run state that is awake and has a frame, emulatorPoll
      does nothing with a live handle or before the deadline; without one and from the deadline
      on it asks for a backend, and it ends with the frame's current bytes on the panel when
      backend and panel agree, and with the next attempt scheduled otherwise. */
  lemma DueRetryIsMade(calls: seq<Call>, env: Env)
    requires Chronological(calls + [Call(OpPoll, env)])
    requires !Run(calls).suspended && Run(calls).last.Some?
    ensures var d, e := Run(calls), Run(calls + [Call(OpPoll, env)]);
      && (d.live || env.checked < d.retryAfter ==> e == d)
      && (!d.live && env.checked >= d.retryAfter ==>
            && Tried(d, e, env.now)
            && if env.createOk && env.writeOk then Displayed(e, env) else Rescheduled(e, env))
  {
    OneMore(calls, Call(OpPoll, env));
    EveryRunKeeps(calls);
    WriteLastTries(Run(calls), env);
  }

  /** A frame submitted to an awake display is displayed at once, or a backend is asked for,
      unless a retry is pending and its time has not come. */
  lemma SubmittedFrameIsTried(calls: seq<Call>, f: Frame, env: Env)
    requires Chronological(calls + [Call(OpSubmit(f), env)]) && !Run(calls).suspended
    ensures var d, e := Run(calls), Run(calls + [Call(OpSubmit(f), env)]);
      && e.last == Some(f) && !e.suspended
      && (!d.live && env.now < d.retryAfter ==> e.log == d.log && e.retryAfter == d.retryAfter && !e.live)
      && (!d.live && env.now >= d.retryAfter ==> Tried(d, e, env.now))
      && (d.live || env.now >= d.retryAfter ==>
            if (d.live || env.createOk) && env.writeOk then Displayed(e, env) else Rescheduled(e, env))
  {
    OneMore(calls, Call(OpSubmit(f), env));
    EveryRunKeeps(calls);
    WriteLastTries(Run(calls).(last := Some(f)), env);
  }

  /** A resume asks for a backend whatever retry was pending. */
  lemma ResumeTriesAtOnce(calls: seq<Call>, env: Env)
    requires Chronological(calls + [Call(OpResume, env)]) && Run(calls).suspended
    ensures var d, e := Run(calls), Run(calls + [Call(OpResume, env)]);
      && !e.suspended && e.last == d.last
      && |d.log| < |e.log| && e.log[..|d.log|] == d.log && e.log[|d.log|] == Resumed
      && (d.last.None? ==> e.log == d.log + [Resumed] && !e.live)
      && (d.last.Some? ==>
            && Tried(d.(log := d.log + [Resumed]), e, env.now)
            && if env.createOk && env.writeOk then Displayed(e, env) else Rescheduled(e, env))
  {
    OneMore(calls, Call(OpResume, env));
    EveryRunKeeps(calls);
    var d := Run(calls);
    var resumed := d.(suspended := false, retryAfter := 0, log := d.log + [Resumed]);
    assert resumed.log[..|d.log|] == d.log;
    if d.last.Some? {
      WriteLastTries(resumed, env);
      LongerLog(d.log, Run(calls + [Call(OpResume, env)]).log);
    }
  }

  lemma LongerLog(front: seq<Event>, log: seq<Event>)
    requires |front| + 1 < |log| && log[..|front| + 1] == front + [Resumed]
    ensures log[..|front|] == front && log[|front|] == Resumed
  {
    assert log[..|front| + 1][..|front|] == log[..|front|];
    assert log[..|front| + 1][|front|] == log[|front|];
  }

  /** A display that goes to sleep or is shut down with a live handle blanks the panel, and
      until the next resume nothing is asked of the backend or the panel. */
  lemma DarkWhileSuspended(calls: seq<Call>, c: Call)
    requires Chronological(calls + [c])
    ensures var d, e := Run(calls), Run(calls + [c]);
      && (c.op.OpSuspend? || c.op.OpShutdown? ==> e.suspended && e.last == d.last && e.retryAfter == d.retryAfter)
      && (c.op.OpSuspend? || c.op.OpShutdown? ==> e.log == if d.live then d.log + [Blanked] else d.log)
      && (d.suspended && !c.op.OpResume? ==> e.suspended && e.log == d.log)
      && (e.suspended ==> !e.live && Panel(e.log).None?)
  {
    OneMore(calls, c);
    EveryRunKeeps(calls);
    EveryRunKeeps(calls + [c]);
  }

  lemma OneMore(calls: seq<Call>, c: Call)
    requires Chronological(calls + [c])
    ensures Run(calls + [c]) == Apply(Run(calls), c)
    ensures Chronological(calls) && c.env.checked <= c.env.now <= c.env.failed
  {
    var all := calls + [c];
    assert all[..|calls|] == calls;
    assert all[|calls|] == c;
    forall i | 0 <= i < |calls|
      ensures calls[i].env.checked <= calls[i].env.now <= calls[i].env.failed
    {
      assert all[i] == calls[i];
    }
    forall i, j | 0 <= i < j < |calls|
      ensures calls[i].env.failed <= calls[j].env.checked
    {
      assert all[i] == calls[i] && all[j] == calls[j];
    }
  }

  /** A call that leaves the handle live after submitting, resuming or retrying has put
      the frame's current bytes on the panel. */
  lemma PanelShowsCurrentBytes(d: State, f: Frame, env: Env)
    ensures var e := Submit(d, f, env);
      e.live && !d.suspended ==> Panel(e.log) == Some((f, Content(f, env)))
    ensures var e := Resume(d, env);
      d.suspended && d.last.Some? && e.live ==> Panel(e.log) == Some((d.last.value, Content(d.last.value, env)))
    ensures var e := Poll(d, env);
      !d.live && d.last.Some? && e.live ==> Panel(e.log) == Some((d.last.value, Content(d.last.value, env)))
  {}

  lemma {:induction false} FailureIsRemembered(log: seq<Event>, i: nat)
    requires Spaced(log) && i < |log| && log[i].Failure?
    requires forall k :: i < k < |log| ==> !log[k].Resumed?
    ensures LatestFailure(log).Some? && LatestFailure(log).value >= log[i].at
  {
    if i < |log| - 1 {
      FailureIsRemembered(log[..|log| - 1], i);
    }
  }

  lemma {:induction false} SpacedPrefix(log: seq<Event>, j: nat)
    requires Spaced(log) && j <= |log|
    ensures Spaced(log[..j])
  {
    if j < |log| {
      SpacedPrefix(log[..|log| - 1], j);
      assert log[..|log| - 1][..j] == log[..j];
    } else {
      assert log[..j] == log;
    }
  }

  lemma AttemptWaits(log: seq<Event>, i: nat, j: nat)
    requires Spaced(log) && i < j < |log| && log[i].Failure? && log[j].Attempt?
    requires forall k :: i < k < j ==> !log[k].Resumed?
    ensures log[j].at >= log[i].at + RETRY_DELAY_MS
  {
    var upTo, front := log[..j + 1], log[..j];
    SpacedPrefix(log, j + 1);
    assert upTo[..|upTo| - 1] == front && upTo[|upTo| - 1] == log[j];
    assert front[i] == log[i] && forall k :: i < k < j ==> front[k] == log[k];
    FailureIsRemembered(front, i);
  }

  /** After a failure no backend is created for a second, unless a resume comes first. */
  lemma RetriesAreSpaced(calls: seq<Call>, i: nat, j: nat)
    requires Chronological(calls)
    requires var log := Run(calls).log;
      i < j < |log| && log[i].Failure? && log[j].Attempt? && forall k :: i < k < j ==> !log[k].Resumed?
    ensures var log := Run(calls).log;
      log[j].at >= log[i].at + 1000
  {
    EveryRunKeeps(calls);
    AttemptWaits(Run(calls).log, i, j);
  }

  // ------------------------------------------------------------- the C code itself

  class Driver {
    var live: bool
    var errorReported: bool
    var suspended: bool
    var retryAfter: nat
    var last: Option<Frame>
    ghost var log: seq<Event>

    ghost function View(): State
      reads this
    {
      State(live, errorReported, suspended, retryAfter, last, log)
    }

    constructor ()
      ensures View() == Start()
    {
      live, errorReported, suspended, retryAfter, last, log := false, false, false, 0, None, [];
    }

    method Fail(env: Env)
      modifies this
      ensures View() == ReportError(old(View()), env)
    {
      errorReported := true;
      live := false;
      retryAfter := env.failed + RETRY_DELAY_MS;
      log := log + [Failure(env.failed)];
    }

    method InitializeDisplay(env: Env) returns (ok: bool)
      requires !live
      modifies this
      ensures View() == Initialize(old(View()), env) && ok == live
    {
      if retryAfter != 0 && env.now < retryAfter {
        return false;
      }
      log := log + [Attempt(env.now)];
      if !env.createOk {
        Fail(env);
        return false;
      }
      live := true;
      errorReported := false;
      retryAfter := 0;
      return true;
    }

    method WriteLastFrame(env: Env)
      modifies this
      ensures View() == WriteLast(old(View()), env)
    {
      if suspended || last.None? {
        return;
      }
      if !live {
        var ok := InitializeDisplay(env);
        if !ok {
          return;
        }
      }
      if env.writeOk {
        log := log + [Shown(last.value, Content(last.value, env))];
      } else {
        Fail(env);
      }
    }

    method WriteFrame(f: Frame, env: Env)
      modifies this
      ensures View() == Submit(old(View()), f, env)
    {
      last := Some(f);
      WriteLastFrame(env);
    }

    method ShutdownDisplay()
      modifies this
      ensures View() == Shutdown(old(View()))
    {
      suspended := true;
      if !live {
        return;
      }
      log := log + [Blanked];
      live := false;
    }

    method SuspendDisplay()
      modifies this
      ensures View() == Suspend(old(View()))
    {
      if suspended {
        return;
      }
      suspended := true;
      if !live {
        return;
      }
      log := log + [Blanked];
      live := false;
    }

    method ResumeDisplay(env: Env)
      modifies this
      ensures View() == Resume(old(View()), env)
    {
      if !suspended {
        return;
      }
      suspended := false;
      retryAfter := 0;
      log := log + [Resumed];
      WriteLastFrame(env);
    }

    method EmulatorPoll(env: Env)
      modifies this
      ensures View() == Poll(old(View()), env)
    {
      if live || retryAfter == 0 {
        return;
      }
      if env.checked < retryAfter {
        return;
      }
      WriteLastFrame(env);
    }
  }
}
