/**
 Pause, cancel and completion: what a campaign that is not running still does.
 */
module DialerControls {
  import opened Dialer
  import opened DialerSafety
  import opened DialerCalls

  predicate StartsADial(e: Event) {
    e.ClaimedAt? || e.BeganPlacing?
  }

  predicate Restarts(a: Action) {
    a == Other(Resume) || a == Other(StartCampaign)
  }

  /** The campaign does not run, and none of `a` sets it running. */
  predicate StaysStopped(s: Sys, a: Action) {
    s.status in {Done, Stopped} || (s.status != Running && !Restarts(a))
  }

  lemma WorkersLeaveTheStatus(c: Campaign, s: Sys, w: WorkerId, move: WorkerMove)
    ensures WorkerDo(c, s, w, move).status == s.status
  {
  }

  lemma StoppedLog(c: Campaign, s: Sys, w: WorkerId, move: WorkerMove)
    requires s.status != Running
    ensures
      var now := WorkerDo(c, s, w, move);
      forall i :: |s.log| <= i < |now.log| ==> !StartsADial(now.log[i])
  {
    if move.Claim? || move.BeginPlacing? {
    } else if move.SettleOne? {
    } else {
    }
  }

  lemma OthersLeaveTheLog(s: Sys, step: OtherMove)
    ensures OtherDo(s, step).log == s.log
    ensures OtherDo(s, step).status in {s.status, Done, Stopped, Paused} || Restarts(Other(step))
    ensures s.status in {Done, Stopped} ==> OtherDo(s, step).status == s.status
    ensures OtherDo(s, step).status == Done ==> s.status == Done || step == FinishIfDone
  {
  }

  lemma StoppedStep(c: Campaign, s: Sys, a: Action)
    requires StaysStopped(s, a)
    ensures
      var now := Do(c, s, a);
      && now.status != Running && (s.status in {Done, Stopped} ==> now.status == s.status)
      && forall i :: |s.log| <= i < |now.log| ==> !StartsADial(now.log[i])
  {
    match a {
      case Worker(w, move) =>
        WorkersLeaveTheStatus(c, s, w, move);
        StoppedLog(c, s, w, move);
      case Other(step) => OthersLeaveTheLog(s, step);
    }
  }

  /** While a campaign is paused, and for good once it is cancelled or completed, no
      target is claimed and none is moved to placing. */
  lemma {:induction false} StoppedStartsNoDial(c: Campaign, s: Sys, steps: seq<Action>)
    requires s.status != Running
    requires s.status in {Done, Stopped} || forall a :: a in steps ==> !Restarts(a)
    ensures
      var now := After(c, s, steps);
      && now.status != Running && (s.status in {Done, Stopped} ==> now.status == s.status)
      && s.log <= now.log
      && forall i :: |s.log| <= i < |now.log| ==> !StartsADial(now.log[i])
    decreases |steps|
  {
    TheLogGrows(c, s, steps);
    if steps != [] {
      var before := After(c, s, steps[..|steps| - 1]);
      StoppedStartsNoDial(c, s, steps[..|steps| - 1]);
      StoppedStep(c, before, steps[|steps| - 1]);
      DoGrowsTheLog(c, before, steps[|steps| - 1]);
    }
  }

  /** After a pause or a cancel the carrier is asked only for targets already moved to
      placing before it. */
  lemma AskedAfterStopWasPlacing(c: Campaign, init: Sys, run: seq<Action>, more: seq<Action>, j: nat) returns (i: nat)
    requires Fresh(init)
    requires
      var s := After(c, init, run);
      && s.status != Running
      && (s.status in {Done, Stopped} || forall a :: a in more ==> !Restarts(a))
      && |s.log| <= j < |After(c, init, run + more).log| && After(c, init, run + more).log[j].Asked?
    ensures
      var log, asked := After(c, init, run).log, After(c, init, run + more).log[j];
      i < |log| && log[i] == BeganPlacing(asked.target, asked.call)
  {
    var s, now := After(c, init, run), After(c, init, run + more);
    AfterAll(c, init, run, more);
    StoppedStartsNoDial(c, s, more);
    var k;
    k, i := AskedUnderItsOwnPlacing(c, init, run + more, j);
    assert now.log[i].BeganPlacing?;
    assert StartsADial(now.log[i]);
  }

  ghost predicate DoneHasNoneOpen(s: Sys) {
    s.status == Done ==> forall t :: t in s.rows ==> s.rows[t].status.IsFinal()
  }

  lemma OpenOrFinal(status: TargetStatus)
    ensures status in OPEN <==> !status.IsFinal()
  {
    match status {
      case Pending =>
      case Dialling =>
      case Placing =>
      case Calling =>
      case _ =>
    }
  }

  lemma FinishesOnlyWhenDone(c: Campaign, s: Sys, a: Action)
    requires DoneHasNoneOpen(s)
    ensures DoneHasNoneOpen(Do(c, s, a))
  {
    StepKeepsFinals(c, s, a);
    match a {
      case Worker(w, move) => WorkersLeaveTheStatus(c, s, w, move);
      case Other(step) => OthersLeaveTheLog(s, step);
    }
    if a == Other(FinishIfDone) && Do(c, s, a).status == Done && s.status != Done {
      assert Do(c, s, a).rows == s.rows;
      forall t | t in s.rows ensures s.rows[t].status.IsFinal() {
        assert s.rows[t].status !in OPEN;
        OpenOrFinal(s.rows[t].status);
      }
    }
  }

  /** In every run a completed campaign has no target left that could be dialled, and
      with `FinalForGood` it never has again. */
  lemma {:induction false} CompletedHasNoneOpen(c: Campaign, init: Sys, steps: seq<Action>)
    requires Fresh(init)
    ensures DoneHasNoneOpen(After(c, init, steps))
    decreases |steps|
  {
    if steps != [] {
      var s, a := After(c, init, steps[..|steps| - 1]), steps[|steps| - 1];
      CompletedHasNoneOpen(c, init, steps[..|steps| - 1]);
      FinishesOnlyWhenDone(c, s, a);
    }
  }
}
