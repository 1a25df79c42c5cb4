/**
 What a target's final status says: completed is the ending of a recorded call that the
 policy does not dial again, and cancelled is the campaign's own.
 */
module DialerEndings {
  import opened Schedule
  import opened Dialer
  import opened DialerSafety
  import opened DialerRetries

  /** The policy dials a call that ended like this no more. */
  predicate EndsIt(c: Campaign, row: CallRow, t: TargetId) {
    && row.target == t && row.ended.Some?
    && (row.ended.value !in c.policy || row.attempt >= c.policy[row.ended.value].maxAttempts)
  }

  ghost predicate Over(c: Campaign, calls: map<CallId, CallRow>, t: TargetId) {
    exists x :: x in calls && EndsIt(c, calls[x], t)
  }

  ghost predicate EndsTell(c: Campaign, s: Sys) {
    && (forall t :: s.In(t, {Completed}) ==> Over(c, s.calls, t))
    && (forall t :: s.In(t, {Cancelled}) ==> s.status == Stopped)
  }

  /** From `s` to `now` no target is completed or cancelled. */
  ghost predicate NoneEnds(s: Sys, now: Sys) {
    && CallsGrow(s.calls, now.calls) && (s.status == Stopped ==> now.status == Stopped)
    && forall t :: (now.In(t, {Completed}) ==> s.In(t, {Completed})) && (now.In(t, {Cancelled}) ==> s.In(t, {Cancelled}))
  }

  lemma NoneEndsTells(c: Campaign, s: Sys, now: Sys)
    requires EndsTell(c, s) && NoneEnds(s, now)
    ensures EndsTell(c, now)
  {
    forall t | now.In(t, {Completed}) ensures Over(c, now.calls, t) {
      var x :| x in s.calls && EndsIt(c, s.calls[x], t);
      assert EndsIt(c, now.calls[x], t);
    }
  }

  lemma ClaimsEndNone(c: Campaign, s: Sys, w: WorkerId, move: WorkerMove)
    requires move.Claim? || move.BeginPlacing? || move.AskCarrier?
    ensures NoneEnds(s, WorkerDo(c, s, w, move))
  {
  }

  lemma RecordEndsNone(c: Campaign, s: Sys, w: WorkerId, move: WorkerMove)
    requires Evidence(c, s) && (move.RecordDial? || move.GiveUpRecording? || move.HandBack?)
    ensures NoneEnds(s, WorkerDo(c, s, w, move))
  {
    assert PcEvidence(s.calls, s.At(w));
  }

  lemma BookkeepingEndsNone(c: Campaign, s: Sys, w: WorkerId, move: WorkerMove)
    requires !Loud(move) && !TouchesRows(move)
    ensures NoneEnds(s, WorkerDo(c, s, w, move))
  {
  }

  /** A settling worker completes a target on the ending it read, when it does. */
  lemma SettlingTells(c: Campaign, s: Sys, e: Ended, at: Instant)
    requires EndsTell(c, s) && Seen(s.calls, e)
    ensures EndsTell(c, DoSettle(c, s, e, at))
  {
    var now := DoSettle(c, s, e, at);
    assert now.calls == s.calls && now.status == s.status;
    forall t | now.In(t, {Completed}) ensures Over(c, now.calls, t) {
      if t == e.target && !s.In(t, {Completed}) {
        assert EndsIt(c, s.calls[e.call], t);
      }
    }
    forall t | now.In(t, {Cancelled}) ensures s.In(t, {Cancelled}) {
    }
  }

  lemma GoTells(c: Campaign, s: Sys, w: WorkerId, pc: Pc)
    requires EndsTell(c, s)
    ensures EndsTell(c, s.Go(w, pc))
  {
    NoneEndsTells(c, s, s.Go(w, pc));
  }

  lemma SettleTells(c: Campaign, s: Sys, w: WorkerId, at: Instant)
    requires EndsTell(c, s) && Evidence(c, s)
    ensures EndsTell(c, WorkerDo(c, s, w, SettleOne(at)))
  {
    if s.At(w).Settling? {
      var seen := s.At(w).seen;
      if seen == [] {
        GoTells(c, s, w, Idle);
      } else {
        assert PcEvidence(s.calls, s.At(w));
        SettlingTells(c, s, seen[0], at);
        GoTells(c, DoSettle(c, s, seen[0], at), w, Settling(seen[1..]));
      }
    }
  }

  lemma WorkerTells(c: Campaign, s: Sys, w: WorkerId, move: WorkerMove)
    requires EndsTell(c, s) && Evidence(c, s)
    ensures EndsTell(c, WorkerDo(c, s, w, move))
  {
    if move.SettleOne? {
      SettleTells(c, s, w, move.now);
    } else {
      if move.Claim? || move.BeginPlacing? || move.AskCarrier? {
        ClaimsEndNone(c, s, w, move);
      } else if move.RecordDial? || move.GiveUpRecording? || move.HandBack? {
        RecordEndsNone(c, s, w, move);
      } else {
        BookkeepingEndsNone(c, s, w, move);
      }
      NoneEndsTells(c, s, WorkerDo(c, s, w, move));
    }
  }

  lemma OtherTells(c: Campaign, s: Sys, step: OtherMove)
    requires EndsTell(c, s)
    ensures EndsTell(c, OtherDo(s, step))
  {
    if step != Cancel {
      OthersEndNone(s, step);
      NoneEndsTells(c, s, OtherDo(s, step));
    } else {
      assert OtherDo(s, Cancel) == DoCancel(s);
    }
  }

  lemma OthersEndNone(s: Sys, step: OtherMove)
    requires step != Cancel
    ensures NoneEnds(s, OtherDo(s, step))
  {
  }

  /** In every run a completed target has a recorded call whose ending the policy does not
      dial again, and a cancelled one belongs to a cancelled campaign. */
  lemma {:induction false} EveryEndingTells(c: Campaign, init: Sys, steps: seq<Action>)
    requires Fresh(init)
    ensures EndsTell(c, After(c, init, steps))
    decreases |steps|
  {
    if steps != [] {
      var before := steps[..|steps| - 1];
      EveryEndingTells(c, init, before);
      EveryRunHasEvidence(c, init, before);
      match steps[|steps| - 1] {
        case Worker(w, move) => WorkerTells(c, After(c, init, before), w, move);
        case Other(step) => OtherTells(c, After(c, init, before), step);
      }
    }
  }
}
