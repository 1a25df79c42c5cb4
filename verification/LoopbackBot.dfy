/**
 An eval iteration's bot: one connection served, one pipeline at most, and none left
 running. A step is what runs between two awaits; connections, the build, the harness
 and the teardown interleave at them.
 */
module LoopbackBot {
  type ConnId = nat

  /** Where a connection's handler waits. */
  datatype Conn = Rejecting | Accepting | Reading | Building | Refusing | Serving | Gone

  datatype Pipeline = NoPipeline | Running | Done

  /** Where `run_iteration` waits: for the server to start, or to stop after failing to;
      for the harness; for the pipeline to end, or to end once cancelled; for the server
      to stop. Its `finally` has ended in `Finished`, or by an exception in `Escaped`. */
  datatype Phase = Starting | StartClosing | Driving | Stopping | Cancelling | Closing | Finished | Escaped

  datatype Event = PipelineStarted(conn: ConnId) | CloseBegan

  datatype Bot = Bot(
    claimed: bool,
    closing: bool,
    pipeline: Pipeline,
    buildError: bool,
    conns: map<ConnId, Conn>,
    phase: Phase,
    interrupted: bool,
    log: seq<Event>)
  {
    function At(c: ConnId): Conn {
      if c in conns then conns[c] else Gone
    }

    function Go(c: ConnId, conn: Conn): Bot {
      this.(conns := conns[c := conn])
    }
  }

  datatype Step =
    | Connect(c: ConnId)
    | Accept(c: ConnId)
    | Read(c: ConnId, flags: bool)
    | Build(c: ConnId, ok: bool)
    | Drop(c: ConnId)
    | PipelineEnds
    | Listening
    | StartFails
    | HarnessEnds
    | StopTimesOut
    | StopSeen
    | ServerStops
    | CancelCaller

  const FRESH := Bot(false, false, NoPipeline, false, map[], Starting, false, [])

  /** `close` up to its first await. */
  function BeginClose(s: Bot): Bot {
    s.(closing := true, log := if s.closing then s.log else s.log + [CloseBegan])
  }

  /** The `finally` up to its first await: a pipeline that runs is waited for, else the
      server is closed at once. */
  function EnterFinally(s: Bot): Bot {
    if s.pipeline.Running? then s.(phase := Stopping) else BeginClose(s).(phase := Closing)
  }

  /** The handler once the build has returned a session. */
  function UseSession(s: Bot, c: ConnId): Bot {
    if s.closing then s.Go(c, Refusing)
    else s.(pipeline := Running, log := s.log + [PipelineStarted(c)]).Go(c, Serving)
  }

  /** The caller's task is cancelled, wherever it waits. Waiting for the pipeline it has
      cancelled, it waits for that task itself: its own cancellation goes to the pipeline
      once more, and it is not woken before the pipeline has ended. */
  function Cancelled(s: Bot): Bot {
    match s.phase
    case Starting => BeginClose(s).(phase := StartClosing)
    case StartClosing => EnterFinally(s)
    case Driving => EnterFinally(s)
    case Stopping => s.(phase := Escaped, interrupted := true)
    case Cancelling => s
    case Closing => s.(phase := Escaped)
    case Finished => s
    case Escaped => s
  }

  function Do(s: Bot, step: Step): Bot {
    match step
    case Connect(c) =>
      if c in s.conns then s
      else if s.claimed then s.Go(c, Rejecting)
      else s.(claimed := true).Go(c, Accepting)
    case Accept(c) => if s.At(c).Accepting? then s.Go(c, Reading) else s
    case Read(c, flags) =>
      if !s.At(c).Reading? then s
      else if flags then s.Go(c, Building)
      else s.(buildError := true).Go(c, Refusing)
    case Build(c, ok) =>
      if !s.At(c).Building? then s
      else if ok then UseSession(s, c)
      else s.(buildError := true).Go(c, Refusing)
    case Drop(c) => if c in s.conns then s.Go(c, Gone) else s
    case PipelineEnds => if s.pipeline.Running? then s.(pipeline := Done) else s
    case Listening => if s.phase.Starting? then s.(phase := Driving) else s
    case StartFails => if s.phase.Starting? then BeginClose(s).(phase := StartClosing) else s
    case HarnessEnds => if s.phase.Driving? then EnterFinally(s) else s
    case StopTimesOut => if s.phase.Stopping? then s.(phase := Cancelling) else s
    case StopSeen =>
      if s.phase in {Stopping, Cancelling} && s.pipeline.Done? then BeginClose(s).(phase := Closing) else s
    case ServerStops =>
      if s.phase.Closing? then s.(phase := Finished)
      else if s.phase.StartClosing? then EnterFinally(s)
      else s
    case CancelCaller => Cancelled(s)
  }

  function After(s: Bot, steps: seq<Step>): Bot
    decreases |steps|
  {
    if steps == [] then s else Do(After(s, steps[..|steps| - 1]), steps[|steps| - 1])
  }

  // ----- what every run keeps

  function Starts(log: seq<Event>): nat
    decreases |log|
  {
    if log == [] then 0 else Starts(log[..|log| - 1]) + if log[|log| - 1].PipelineStarted? then 1 else 0
  }

  lemma StartsAfter(log: seq<Event>, e: Event)
    ensures Starts(log + [e]) == Starts(log) + if e.PipelineStarted? then 1 else 0
  {
    assert (log + [e])[..|log|] == log;
  }

  predicate OnItsWay(conn: Conn) {
    conn.Accepting? || conn.Reading? || conn.Building?
  }

  /** One connection at most was claimed for, and none is on its way once a pipeline
      was started. */
  ghost predicate OneClaim(s: Bot) {
    && (!s.claimed ==> s.pipeline.NoPipeline?)
    && (forall c: ConnId :: OnItsWay(s.At(c)) ==> s.claimed && s.pipeline.NoPipeline?)
    && (forall c: ConnId, d: ConnId :: OnItsWay(s.At(c)) && OnItsWay(s.At(d)) ==> c == d)
  }

  /** The pipeline is the one that was started, and none was since `close` began. */
  ghost predicate LogTells(s: Bot) {
    && Starts(s.log) == (if s.pipeline.NoPipeline? then 0 else 1)
    && (s.closing <==> CloseBegan in s.log)
    && (forall i, j :: 0 <= i < j < |s.log| && s.log[i].CloseBegan? ==> !s.log[j].PipelineStarted?)
  }

  /** Past its wait for the pipeline the caller has begun to close with the pipeline done,
      unless it was cancelled in the first of its waits and left at once. */
  predicate WoundDown(s: Bot) {
    && (s.phase in {Closing, Finished, StartClosing} ==> s.closing)
    && (s.phase in {Stopping, Cancelling} ==> !s.pipeline.NoPipeline?)
    && (s.phase in {Closing, Finished, Escaped} && !s.interrupted ==> s.closing && !s.pipeline.Running?)
    && (s.interrupted ==> s.phase.Escaped?)
  }

  ghost predicate Inv(s: Bot) {
    OneClaim(s) && LogTells(s) && WoundDown(s)
  }

  /** The steps that only the bot's own connections take. */
  predicate OfAConnection(step: Step) {
    step.Connect? || step.Accept? || step.Read? || step.Build? || step.Drop?
  }

  lemma SameClaim(s: Bot, now: Bot)
    requires OneClaim(s) && now.claimed == s.claimed && now.conns == s.conns
    requires now.pipeline.NoPipeline? == s.pipeline.NoPipeline?
    ensures OneClaim(now)
  {
    forall c: ConnId ensures now.At(c) == s.At(c) {
    }
  }

  lemma CallerLeavesConns(s: Bot, step: Step)
    requires !OfAConnection(step)
    ensures
      var now := Do(s, step);
      && now.claimed == s.claimed && now.conns == s.conns
      && now.pipeline.NoPipeline? == s.pipeline.NoPipeline?
  {
    if OfTheCaller(step) {
      CallerCloses(s, step);
    }
  }

  lemma BuildKeepsOneClaim(s: Bot, c: ConnId, ok: bool)
    requires OneClaim(s)
    ensures OneClaim(Do(s, Build(c, ok)))
  {
    var now := Do(s, Build(c, ok));
    if s.At(c).Building? {
      assert OnItsWay(s.At(c));
      forall d: ConnId ensures !OnItsWay(now.At(d)) {
        assert d != c ==> now.At(d) == s.At(d);
      }
    }
  }

  lemma ConnectKeepsOneClaim(s: Bot, c: ConnId)
    requires OneClaim(s)
    ensures OneClaim(Do(s, Connect(c)))
  {
    var now := Do(s, Connect(c));
    forall d: ConnId ensures OnItsWay(now.At(d)) ==> OnItsWay(s.At(d)) || (d == c && !s.claimed) {
      assert d != c ==> now.At(d) == s.At(d);
    }
  }

  lemma StepKeepsOneClaim(s: Bot, step: Step)
    requires OneClaim(s)
    ensures OneClaim(Do(s, step))
  {
    match step {
      case Connect(c) => ConnectKeepsOneClaim(s, c);
      case Build(c, ok) => BuildKeepsOneClaim(s, c, ok);
      case _ =>
        if OfAConnection(step) {
          OnwardsKeepsOneClaim(s, step);
        } else {
          CallerLeavesConns(s, step);
          SameClaim(s, Do(s, step));
        }
    }
  }

  lemma OnwardsKeepsOneClaim(s: Bot, step: Step)
    requires OneClaim(s) && (step.Accept? || step.Read? || step.Drop?)
    ensures OneClaim(Do(s, step))
  {
    var now := Do(s, step);
    forall d: ConnId ensures OnItsWay(now.At(d)) ==> OnItsWay(s.At(d)) {
      assert d != step.c ==> now.At(d) == s.At(d);
    }
  }

  lemma NotedKeepsLog(s: Bot, now: Bot, e: Event)
    requires LogTells(s) && now.log == s.log + [e]
    requires if e.CloseBegan? then now.closing && now.pipeline == s.pipeline
             else !s.closing && !now.closing && s.pipeline.NoPipeline? && now.pipeline.Running?
    ensures LogTells(now)
  {
    StartsAfter(s.log, e);
    forall i | 0 <= i < |s.log| && s.log[i].CloseBegan? ensures s.closing {
      assert s.log[i] == CloseBegan;
      assert CloseBegan in s.log;
    }
    assert now.log[|s.log|] == e;
    assert CloseBegan in now.log <==> CloseBegan in s.log || e == CloseBegan;
  }

  lemma BeginCloseKeepsLog(s: Bot)
    requires LogTells(s)
    ensures LogTells(BeginClose(s))
  {
    if !s.closing {
      NotedKeepsLog(s, BeginClose(s), CloseBegan);
    }
  }

  lemma SameLog(s: Bot, now: Bot)
    requires LogTells(s) && now.log == s.log && now.closing == s.closing
    requires now.pipeline.NoPipeline? == s.pipeline.NoPipeline?
    ensures LogTells(now)
  {
  }

  lemma BuildKeepsLog(s: Bot, c: ConnId, ok: bool)
    requires OneClaim(s) && LogTells(s)
    ensures LogTells(Do(s, Build(c, ok)))
  {
    if s.At(c).Building? && ok && !s.closing {
      NotedKeepsLog(s, UseSession(s, c), PipelineStarted(c));
    } else {
      SameLog(s, Do(s, Build(c, ok)));
    }
  }

  predicate OfTheCaller(step: Step) {
    step.StartFails? || step.HarnessEnds? || step.StopSeen? || step.ServerStops? || step.CancelCaller?
  }

  lemma CallerCloses(s: Bot, step: Step)
    requires OfTheCaller(step)
    ensures
      var now := Do(s, step);
      || now == s.(phase := now.phase, interrupted := now.interrupted)
      || now == BeginClose(s).(phase := now.phase, interrupted := now.interrupted)
  {
    match step {
      case StartFails =>
      case HarnessEnds =>
      case StopSeen =>
      case ServerStops =>
      case CancelCaller =>
    }
  }

  lemma CallerKeepsLog(s: Bot, step: Step)
    requires LogTells(s) && OfTheCaller(step)
    ensures LogTells(Do(s, step))
  {
    var now := Do(s, step);
    BeginCloseKeepsLog(s);
    CallerCloses(s, step);
    if now.log == s.log && now.closing == s.closing {
      SameLog(s, now);
    } else {
      SameLog(BeginClose(s), now);
    }
  }

  lemma StepKeepsLog(s: Bot, step: Step)
    requires OneClaim(s) && LogTells(s)
    ensures LogTells(Do(s, step))
  {
    if step.Build? {
      BuildKeepsLog(s, step.c, step.ok);
    } else if OfTheCaller(step) {
      CallerKeepsLog(s, step);
    } else {
      SameLog(s, Do(s, step));
    }
  }

  lemma StepWindsDown(s: Bot, step: Step)
    requires OneClaim(s) && WoundDown(s)
    ensures WoundDown(Do(s, step))
  {
  }

  lemma {:induction false} EveryRunKeeps(steps: seq<Step>)
    ensures Inv(After(FRESH, steps))
    decreases |steps|
  {
    if steps != [] {
      var s, step := After(FRESH, steps[..|steps| - 1]), steps[|steps| - 1];
      EveryRunKeeps(steps[..|steps| - 1]);
      StepKeepsOneClaim(s, step);
      StepKeepsLog(s, step);
      StepWindsDown(s, step);
    }
  }

  /** In every interleaving at most one pipeline is ever started, and none once `close`
      has begun. */
  lemma OnePipelineAtMost(steps: seq<Step>)
    ensures
      var log := After(FRESH, steps).log;
      && Starts(log) <= 1
      && forall i, j :: 0 <= i < j < |log| && log[i].CloseBegan? ==> !log[j].PipelineStarted?
  {
    EveryRunKeeps(steps);
  }

  predicate Over(s: Bot) {
    s.phase in {Finished, Escaped}
  }

  lemma AfterOver(s: Bot, step: Step)
    requires Inv(s) && Over(s) && !s.interrupted
    ensures Over(Do(s, step)) && !Do(s, step).interrupted
  {
  }

  /** When the `finally` of `run_iteration` has ended, however it did, no pipeline runs
      and none will be started, unless the caller itself was cancelled in its first wait
      for the pipeline. */
  lemma NoPipelineLeftRunning(steps: seq<Step>, more: seq<Step>)
    requires Over(After(FRESH, steps)) && !After(FRESH, steps).interrupted
    ensures !After(After(FRESH, steps), more).pipeline.Running?
    decreases |more|
  {
    StaysOver(steps, more);
  }

  lemma {:induction false} StaysOver(steps: seq<Step>, more: seq<Step>)
    requires Over(After(FRESH, steps)) && !After(FRESH, steps).interrupted
    ensures
      var s := After(After(FRESH, steps), more);
      Inv(s) && Over(s) && !s.interrupted && !s.pipeline.Running?
    decreases |more|
  {
    EveryRunKeeps(steps);
    if more != [] {
      StaysOver(steps, more[..|more| - 1]);
      var s, step := After(After(FRESH, steps), more[..|more| - 1]), more[|more| - 1];
      StepKeepsOneClaim(s, step);
      StepKeepsLog(s, step);
      StepWindsDown(s, step);
      AfterOver(s, step);
    }
  }

  lemma AfterThen(steps: seq<Step>, step: Step)
    ensures After(FRESH, steps + [step]) == Do(After(FRESH, steps), step)
  {
    assert (steps + [step])[..|steps|] == steps;
  }

  const CONNECTED: seq<Step> := [] + [Listening] + [Connect(0)] + [Accept(0)]
  const UP_TO_STOPPING: seq<Step> := CONNECTED + [Read(0, true)] + [Build(0, true)] + [HarnessEnds]

  lemma UpToConnected()
    ensures
      var s := After(FRESH, CONNECTED);
      s.phase == Driving && s.At(0) == Reading && s.pipeline == NoPipeline && !s.closing
  {
    AfterThen([], Listening);
    AfterThen([] + [Listening], Connect(0));
    AfterThen([] + [Listening] + [Connect(0)], Accept(0));
  }

  lemma UpToStopping()
    ensures
      var s := After(FRESH, UP_TO_STOPPING);
      s.phase == Stopping && s.pipeline == Running
  {
    UpToConnected();
    AfterThen(CONNECTED, Read(0, true));
    AfterThen(CONNECTED + [Read(0, true)], Build(0, true));
    AfterThen(CONNECTED + [Read(0, true)] + [Build(0, true)], HarnessEnds);
  }

  /** Cancelled in its first wait for the pipeline, the caller leaves its `finally` at once
      and the pipeline running. */
  lemma InterruptedLeavesItRunning()
    ensures
      var s := After(FRESH, UP_TO_STOPPING + [CancelCaller]);
      s.phase == Escaped && s.pipeline == Running
  {
    UpToStopping();
    AfterThen(UP_TO_STOPPING, CancelCaller);
  }

  lemma EndsByAStep(s: Bot, step: Step)
    requires Inv(s) && !Over(s) && Over(Do(s, step))
    ensures Do(s, step).pipeline == s.pipeline
    ensures step.ServerStops? || (step.CancelCaller? && s.phase in {Stopping, Closing})
  {
  }

  /** The step that ends the `finally` leaves a pipeline running exactly when it is a
      cancellation of the caller in its first wait for a pipeline that runs. */
  lemma LeftRunningIffInterrupted(steps: seq<Step>, step: Step)
    requires !Over(After(FRESH, steps)) && Over(Do(After(FRESH, steps), step))
    ensures
      var s := After(FRESH, steps);
      Do(s, step).pipeline.Running? <==> step.CancelCaller? && s.phase.Stopping? && s.pipeline.Running?
  {
    EveryRunKeeps(steps);
    EndsByAStep(After(FRESH, steps), step);
  }

  // ----- what stopped the pipeline being built

  /** The step fails the one build: its connection sent no flags, or the build raised. */
  predicate FailsBuild(s: Bot, step: Step) {
    || (step.Read? && s.At(step.c).Reading? && !step.flags)
    || (step.Build? && s.At(step.c).Building? && !step.ok)
  }

  /** Some step up to now failed the build. */
  ghost predicate BuildFailed(steps: seq<Step>) {
    exists k :: 0 <= k < |steps| && FailsBuild(After(FRESH, steps[..k]), steps[k])
  }

  lemma FailedBefore(steps: seq<Step>)
    requires steps != []
    ensures BuildFailed(steps) <==>
      BuildFailed(steps[..|steps| - 1]) || FailsBuild(After(FRESH, steps[..|steps| - 1]), steps[|steps| - 1])
  {
    var before := steps[..|steps| - 1];
    assert forall k :: 0 <= k < |before| ==> before[..k] == steps[..k] && before[k] == steps[k];
  }

  lemma OneStepFails(s: Bot, step: Step)
    ensures Do(s, step).buildError == (s.buildError || FailsBuild(s, step))
  {
    if OfTheCaller(step) {
      CallerCloses(s, step);
    }
  }

  /** A build that failed leaves no connection on its way and no pipeline. */
  ghost predicate ErrorTells(s: Bot) {
    s.buildError ==> s.claimed && s.pipeline.NoPipeline? && forall c: ConnId :: !OnItsWay(s.At(c))
  }

  lemma StepKeepsError(s: Bot, step: Step)
    requires OneClaim(s) && ErrorTells(s)
    ensures ErrorTells(Do(s, step))
  {
    var now := Do(s, step);
    OneStepFails(s, step);
    if FailsBuild(s, step) {
      forall d: ConnId ensures !OnItsWay(now.At(d)) {
        assert OnItsWay(s.At(step.c));
        assert d != step.c ==> now.At(d) == s.At(d);
      }
    } else if s.buildError {
      if OfAConnection(step) {
        forall d: ConnId ensures !OnItsWay(now.At(d)) {
          assert d != step.c ==> now.At(d) == s.At(d);
        }
      } else {
        CallerLeavesConns(s, step);
        forall d: ConnId ensures now.At(d) == s.At(d) {
        }
      }
    }
  }

  /** What is raised once the iteration is over is there exactly when the build failed, and
      then no pipeline was ever started. */
  lemma {:induction false} BuildErrorTells(steps: seq<Step>)
    ensures
      var s := After(FRESH, steps);
      && (s.buildError <==> BuildFailed(steps))
      && ErrorTells(s) && (s.buildError ==> Starts(s.log) == 0)
    decreases |steps|
  {
    EveryRunKeeps(steps);
    if steps != [] {
      var before := steps[..|steps| - 1];
      BuildErrorTells(before);
      EveryRunKeeps(before);
      FailedBefore(steps);
      OneStepFails(After(FRESH, before), steps[|steps| - 1]);
      StepKeepsError(After(FRESH, before), steps[|steps| - 1]);
    }
  }

  // ----- the objects themselves

  /** The step into the `finally`, from the harness or from a start that failed. */
  function IntoFinally(phase: Phase, cancelled: bool): Step {
    if cancelled then CancelCaller else if phase.Driving? then HarnessEnds else ServerStops
  }

  lemma FinallyIsEntered(s: Bot, cancelled: bool)
    requires s.phase in {Driving, StartClosing}
    ensures Do(s, IntoFinally(s.phase, cancelled)) == EnterFinally(s)
  {
  }

  /** The bot's fields and its caller's, changed between one await and the next. */
  class Iteration {
    var claimed: bool
    var closing: bool
    var pipeline: Pipeline
    var buildError: bool
    var conns: map<ConnId, Conn>
    var phase: Phase
    ghost var interrupted: bool
    ghost var log: seq<Event>
    ghost var ran: seq<Step>

    ghost function View(): Bot
      reads this
    {
      Bot(claimed, closing, pipeline, buildError, conns, phase, interrupted, log)
    }

    /** The fields are what the steps so far made of them. */
    ghost predicate Valid()
      reads this
    {
      View() == After(FRESH, ran)
    }

    constructor ()
      ensures Valid() && ran == []
    {
      claimed, closing, pipeline, buildError, conns, phase := false, false, NoPipeline, false, map[], Starting;
      interrupted, log, ran := false, [], [];
    }

    ghost method Ran(step: Step, before: Bot)
      requires before == After(FRESH, ran) && View() == Do(before, step)
      modifies this`ran
      ensures Valid() && ran == old(ran) + [step]
    {
      AfterThen(ran, step);
      ran := ran + [step];
    }

    /** The server listens, and the harness is driven. */
    method Listen()
      requires Valid() && phase.Starting?
      modifies this
      ensures Valid() && ran == old(ran) + [Listening] && phase == Driving
    {
      ghost var before := View();
      phase := Driving;
      Ran(Listening, before);
    }

    /** `start` has failed, or its caller is cancelled in it: the server is closed first. */
    method StartFailed(cancelled: bool)
      requires Valid() && phase.Starting?
      modifies this
      ensures Valid() && ran == old(ran) + [if cancelled then CancelCaller else StartFails]
      ensures phase == StartClosing && closing && pipeline == old(pipeline)
    {
      ghost var before := View();
      Close(StartClosing);
      Ran(if cancelled then CancelCaller else StartFails, before);
    }

    /** `_serve_harness` up to its first await. */
    method ServeHarness(c: ConnId)
      requires Valid() && c !in conns
      modifies this
      ensures Valid() && ran == old(ran) + [Connect(c)] && claimed
      ensures conns == old(conns)[c := if old(claimed) then Rejecting else Accepting]
    {
      ghost var before := View();
      if claimed {
        conns := conns[c := Rejecting];
      } else {
        claimed := true;
        conns := conns[c := Accepting];
      }
      Ran(Connect(c), before);
    }

    /** The socket is accepted. */
    method Accepted(c: ConnId)
      requires Valid() && c in conns && conns[c].Accepting?
      modifies this
      ensures Valid() && ran == old(ran) + [Accept(c)] && conns == old(conns)[c := Reading]
    {
      ghost var before := View();
      conns := conns[c := Reading];
      Ran(Accept(c), before);
    }

    /** A connection is gone, wherever its handler waited. */
    method Dropped(c: ConnId)
      requires Valid() && c in conns
      modifies this
      ensures Valid() && ran == old(ran) + [Drop(c)] && conns == old(conns)[c := Gone]
      ensures pipeline == old(pipeline) && phase == old(phase)
    {
      ghost var before := View();
      conns := conns[c := Gone];
      Ran(Drop(c), before);
    }

    /** `_serve_harness` once its `eval-connect` was read, or was none. */
    method FlagsRead(c: ConnId, flags: bool)
      requires Valid() && c in conns && conns[c].Reading?
      modifies this
      ensures Valid() && ran == old(ran) + [Read(c, flags)]
      ensures conns == old(conns)[c := if flags then Building else Refusing]
      ensures buildError == (old(buildError) || !flags)
    {
      ghost var before := View();
      if !flags {
        buildError := true;
        conns := conns[c := Refusing];
      } else {
        conns := conns[c := Building];
      }
      Ran(Read(c, flags), before);
    }

    /** `_serve_harness` once the build has ended: the pipeline starts unless the build
        failed or the bot is closing. */
    method BuildEnded(c: ConnId, ok: bool)
      requires Valid() && c in conns && conns[c].Building?
      modifies this
      ensures Valid() && ran == old(ran) + [Build(c, ok)]
      ensures ok && !closing ==> old(pipeline).NoPipeline? && pipeline.Running? && conns[c].Serving?
      ensures !ok || closing ==> pipeline == old(pipeline) && conns[c].Refusing?
      ensures buildError == (old(buildError) || !ok)
    {
      ghost var before := View();
      EveryRunKeeps(ran);
      assert OnItsWay(before.At(c));
      if !ok {
        buildError := true;
        conns := conns[c := Refusing];
      } else if closing {
        conns := conns[c := Refusing];
      } else {
        pipeline := Running;
        log := log + [PipelineStarted(c)];
        conns := conns[c := Serving];
      }
      Ran(Build(c, ok), before);
    }

    /** `close` up to its first await. */
    method Close(next: Phase)
      modifies this`closing, this`phase, this`log
      ensures View() == BeginClose(old(View())).(phase := next)
    {
      log := if closing then log else log + [CloseBegan];
      closing := true;
      phase := next;
    }

    /** The pipeline's task has ended. */
    method PipelineEnded()
      requires Valid() && pipeline.Running?
      modifies this
      ensures Valid() && ran == old(ran) + [PipelineEnds] && pipeline == Done && phase == old(phase)
    {
      ghost var before := View();
      pipeline := Done;
      Ran(PipelineEnds, before);
    }

    /** The harness has ended, or failed, or its caller is cancelled, or the server that
        did not start has stopped: the `finally` is entered. */
    method Finally(cancelled: bool)
      requires Valid() && phase in {Driving, StartClosing}
      modifies this
      ensures Valid() && ran == old(ran) + [IntoFinally(old(phase), cancelled)]
      ensures if pipeline.Running? then phase == Stopping else phase == Closing && closing
    {
      ghost var before := View();
      ghost var step := IntoFinally(phase, cancelled);
      FinallyIsEntered(before, cancelled);
      if pipeline.Running? {
        phase := Stopping;
      } else {
        Close(Closing);
      }
      Ran(step, before);
    }

    /** `_stop_bot` has waited long enough, and cancels the pipeline. */
    method StopTimedOut()
      requires Valid() && phase.Stopping?
      modifies this
      ensures Valid() && ran == old(ran) + [StopTimesOut] && phase == Cancelling
    {
      ghost var before := View();
      phase := Cancelling;
      Ran(StopTimesOut, before);
    }

    /** The caller is cancelled in the `finally`: it leaves it, but for its wait for the
        pipeline it has cancelled, which goes on. */
    method CancelledInFinally()
      requires Valid() && phase in {Stopping, Cancelling, Closing}
      modifies this
      ensures Valid() && ran == old(ran) + [CancelCaller] && pipeline == old(pipeline)
      ensures phase == if old(phase).Cancelling? then Cancelling else Escaped
    {
      ghost var before := View();
      if phase.Stopping? {
        phase := Escaped;
        interrupted := true;
      } else if phase.Closing? {
        phase := Escaped;
      }
      Ran(CancelCaller, before);
    }

    /** `_stop_bot` has seen the pipeline end, of itself or cancelled. */
    method Stopped()
      requires Valid() && phase in {Stopping, Cancelling} && pipeline.Done?
      modifies this
      ensures Valid() && ran == old(ran) + [StopSeen] && phase == Closing && closing
    {
      ghost var before := View();
      Close(Closing);
      Ran(StopSeen, before);
    }

    /** The server has stopped: the `finally` is over, and no pipeline runs. */
    method ServerStopped()
      requires Valid() && phase.Closing?
      modifies this
      ensures Valid() && ran == old(ran) + [ServerStops] && phase == Finished && closing && !pipeline.Running?
    {
      ghost var before := View();
      EveryRunKeeps(ran);
      phase := Finished;
      Ran(ServerStops, before);
    }
  }
}
