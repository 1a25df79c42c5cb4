/**
 When a target is dialled again: only on a recorded call's ending that the policy
 admits, no sooner than it says, and only so many times.
 */
module DialerRetries {
  import opened Options
  import opened Schedule
  import opened Dialer
  import opened DialerSafety
  import opened DialerCalls
  import opened DialerSlots

  // ----- what stands behind a retry

  /** A recorded call keeps its target and its number, and its ending once it has one. */
  ghost predicate CallsGrow(calls: map<CallId, CallRow>, now: map<CallId, CallRow>) {
    forall x :: x in calls ==>
      && x in now && now[x].target == calls[x].target && now[x].attempt == calls[x].attempt
      && (calls[x].ended.Some? ==> now[x].ended == calls[x].ended)
  }

  /** A retry says the ending of a recorded call for its target, one that the policy
      dials again, and the instant the policy and the window give. */
  ghost predicate Justified(c: Campaign, calls: map<CallId, CallRow>, e: Event)
    requires e.Retried?
  {
    && e.call in calls && calls[e.call].target == e.target && calls[e.call].ended == Some(e.reason)
    && e.reason in c.policy && 1 <= calls[e.call].attempt < c.policy[e.reason].maxAttempts
    && e.at == NextOpen(c.zone(e.target), c.window, e.seen + c.policy[e.reason].spacing)
  }

  predicate Seen(calls: map<CallId, CallRow>, e: Ended) {
    e.call in calls && calls[e.call] == CallRow(e.target, e.attempts, Some(e.reason)) && e.attempts > 0
  }

  /** A calling target's call is recorded, with the target's count of dials. */
  predicate HasItsCall(s: Sys, t: TargetId) {
    && s.In(t, {Calling}) && s.rows[t].callId.Some?
    && var call := s.rows[t].callId.value;
       call in s.calls && s.calls[call].target == t && s.calls[call].attempt == s.rows[t].attempts > 0
  }

  ghost predicate PcEvidence(calls: map<CallId, CallRow>, pc: Pc) {
    && (pc.Placed? ==> pc.call !in calls)
    && (pc.Settling? ==> forall e :: e in pc.seen ==> Seen(calls, e))
  }

  ghost predicate Evidence(c: Campaign, s: Sys) {
    && (forall w: WorkerId {:trigger s.At(w)} :: PcEvidence(s.calls, s.At(w)))
    && (forall t :: s.In(t, {Calling}) ==> HasItsCall(s, t))
    && (forall e :: e in s.log && e.Retried? ==> Justified(c, s.calls, e))
  }

  /** From `s` to `now` nothing changes that evidence is about, but what is evident itself. */
  ghost predicate NothingNew(c: Campaign, s: Sys, now: Sys) {
    && CallsGrow(s.calls, now.calls)
    && (forall w: WorkerId {:trigger now.At(w)} ::
          PcEvidence(now.calls, now.At(w)))
    && (forall t :: now.In(t, {Calling}) ==>
          || HasItsCall(now, t)
          || (s.In(t, {Calling}) && now.rows[t].callId == s.rows[t].callId && now.rows[t].attempts == s.rows[t].attempts))
    && (forall e :: e in now.log && e.Retried? ==> e in s.log || Justified(c, now.calls, e))
  }

  lemma NothingNewKeepsEvidence(c: Campaign, s: Sys, now: Sys)
    requires Evidence(c, s) && NothingNew(c, s, now)
    ensures Evidence(c, now)
  {
    forall w: WorkerId ensures PcEvidence(now.calls, now.At(w)) {
      assert PcEvidence(s.calls, s.At(w));
    }
    forall t | now.In(t, {Calling}) ensures HasItsCall(now, t) {
      if s.In(t, {Calling}) {
        assert HasItsCall(s, t);
      }
    }
  }

  lemma QuietKeepsEvidence(c: Campaign, s: Sys, now: Sys)
    requires Evidence(c, s) && Quiet(s, now) && CallsGrow(s.calls, now.calls)
    requires forall w: WorkerId {:trigger now.At(w)} :: PcEvidence(now.calls, now.At(w))
    ensures Evidence(c, now)
  {
    forall t | now.In(t, {Calling}) ensures HasItsCall(now, t) {
      assert QuietRow(s.rows[t], now.rows[t]);
      assert HasItsCall(s, t);
    }
    forall e | e in now.log && e.Retried? ensures Justified(c, now.calls, e) {
      assert e in s.log;
    }
  }

  /** A settling worker reads the calls of calling targets, each with its count. */
  lemma ReadIsSeen(c: Campaign, s: Sys, seen: seq<Ended>)
    requires Evidence(c, s) && forall e :: e in seen ==> ReadsWhatIsThere(s, e)
    ensures PcEvidence(s.calls, Settling(seen))
  {
    forall e | e in seen ensures Seen(s.calls, e) {
      assert HasItsCall(s, e.target);
    }
  }

  lemma QuietWorkerLeaves(s: Sys, c: Campaign, w: WorkerId, move: WorkerMove)
    requires !Loud(move)
    ensures
      var now := WorkerDo(c, s, w, move);
      && now.calls == s.calls
      && (forall v: WorkerId :: v != w ==> now.At(v) == s.At(v))
      && (now.At(w) == s.At(w) || (!now.At(w).Placed? && (now.At(w).Settling? ==> move.ReadEnded?)))
  {
    WorkerMoves(c, s, w, move);
    if TouchesRows(move) {
      RowsMoveLeaves(s, c, w, move);
    } else {
      BookkeepingLeaves(s, c, w, move);
    }
  }

  lemma RowsMoveLeaves(s: Sys, c: Campaign, w: WorkerId, move: WorkerMove)
    requires TouchesRows(move)
    ensures
      var now := WorkerDo(c, s, w, move);
      now.calls == s.calls && (now.At(w) == s.At(w) || (!now.At(w).Placed? && !now.At(w).Settling?))
  {
  }

  lemma BookkeepingLeaves(s: Sys, c: Campaign, w: WorkerId, move: WorkerMove)
    requires !Loud(move) && !TouchesRows(move)
    ensures
      var now := WorkerDo(c, s, w, move);
      && now.calls == s.calls
      && (now.At(w) == s.At(w) || (!now.At(w).Placed? && (now.At(w).Settling? ==> move.ReadEnded?)))
  {
  }

  lemma QuietWorkerEvidence(c: Campaign, s: Sys, w: WorkerId, move: WorkerMove)
    requires Evidence(c, s) && !Loud(move)
    ensures Evidence(c, WorkerDo(c, s, w, move))
  {
    var now := WorkerDo(c, s, w, move);
    QuietWorker(c, s, w, move);
    QuietWorkerLeaves(s, c, w, move);
    if s.At(w).Idle? && move.ReadEnded? && now != s {
      ReadIsSeen(c, s, move.seen);
    }
    forall v: WorkerId ensures PcEvidence(now.calls, now.At(v)) {
      assert PcEvidence(s.calls, s.At(v));
    }
    QuietKeepsEvidence(c, s, now);
  }

  lemma OtherEvidence(c: Campaign, s: Sys, step: OtherMove)
    requires Evidence(c, s)
    ensures Evidence(c, OtherDo(s, step))
  {
    var now := OtherDo(s, step);
    QuietOther(s, step);
    OtherLeaves(s, step);
    forall v: WorkerId ensures PcEvidence(now.calls, now.At(v)) {
      assert PcEvidence(s.calls, s.At(v));
      assert now.At(v) == s.At(v);
    }
    QuietKeepsEvidence(c, s, now);
  }

  lemma OtherLeaves(s: Sys, step: OtherMove)
    ensures
      var now := OtherDo(s, step);
      now.pcs == s.pcs && CallsGrow(s.calls, now.calls) && forall x :: x in now.calls ==> x in s.calls
  {
  }

  lemma BeginPlacingEvidence(c: Campaign, s: Sys, w: WorkerId, call: CallId, t: TargetId, at: Instant)
    requires Evidence(c, s) && s.At(w) == Claimed(call, t)
    ensures Evidence(c, DoBeginPlacing(s, w, call, t, at))
  {
    var now := DoBeginPlacing(s, w, call, t, at);
    forall v: WorkerId ensures PcEvidence(now.calls, now.At(v)) {
      assert PcEvidence(s.calls, s.At(v));
    }
    NothingNewKeepsEvidence(c, s, now);
  }

  lemma AskEvidence(c: Campaign, s: Sys, w: WorkerId, call: CallId, t: TargetId, placed: bool)
    requires Lives(c, s) && Accounted(s) && Evidence(c, s) && s.At(w) == Asking(call, t)
    ensures Evidence(c, WorkerDo(c, s, w, AskCarrier(placed)))
  {
    var now := WorkerDo(c, s, w, AskCarrier(placed));
    assert Stands(s.At(w), Last(s.log, call));
    forall v: WorkerId ensures PcEvidence(now.calls, now.At(v)) {
      assert PcEvidence(s.calls, s.At(v));
    }
    NothingNewKeepsEvidence(c, s, now);
  }

  lemma RecordEvidence(c: Campaign, s: Sys, w: WorkerId, call: CallId, t: TargetId, wrote: bool, pc: Pc)
    requires Lives(c, s) && Evidence(c, s) && s.At(w) == Placed(call, t) && (pc == Idle || pc == Unrecorded(call, t))
    ensures Evidence(c, (if wrote then DoRecord(s, call, t) else s).Go(w, pc))
  {
    var now := (if wrote then DoRecord(s, call, t) else s).Go(w, pc);
    assert call !in s.calls by {
      assert PcEvidence(s.calls, s.At(w));
    }
    forall v: WorkerId ensures PcEvidence(now.calls, now.At(v)) {
      assert PcEvidence(s.calls, s.At(v));
      if v != w && s.At(v).Placed? {
        assert Carries(s.At(v)) && Carries(s.At(w));
      }
    }
    NothingNewKeepsEvidence(c, s, now);
  }

  /** What a settling worker read still stands, so a retry it writes is justified. */
  lemma RetryEvidence(c: Campaign, s: Sys, e: Ended, now: Instant)
    requires Evidence(c, s) && Seen(s.calls, e)
    ensures Evidence(c, DoSettle(c, s, e, now))
  {
    var mid := DoSettle(c, s, e, now);
    SettleLeaves(c, s, e, now);
    forall v: WorkerId ensures PcEvidence(mid.calls, mid.At(v)) {
      assert mid.At(v) == s.At(v);
    }
    NothingNewKeepsEvidence(c, s, mid);
  }

  lemma SettleLeaves(c: Campaign, s: Sys, e: Ended, now: Instant)
    requires Seen(s.calls, e)
    ensures
      var mid := DoSettle(c, s, e, now);
      && mid.calls == s.calls && mid.pcs == s.pcs
      && (forall t :: mid.In(t, {Calling}) ==> s.In(t, {Calling}) && mid.rows[t] == s.rows[t])
      && (mid.log == s.log || (mid.log == s.log + [mid.log[|s.log|]]
            && mid.log[|s.log|].Retried? && Justified(c, s.calls, mid.log[|s.log|])))
  {
    var at := RetryAt(c.policy, e.reason, e.attempts, now, c.zone(e.target), c.window);
    if at.Some? && s.In(e.target, {Calling}) {
      var said := Retried(e.target, e.call, e.reason, now, at.value, s.rows[e.target].callId != Some(e.call));
      assert Justified(c, s.calls, said);
      assert DoSettle(c, s, e, now).log == s.log + [said];
    }
  }

  lemma SettleEvidence(c: Campaign, s: Sys, w: WorkerId, seen: seq<Ended>, at: Instant)
    requires Evidence(c, s) && s.At(w) == Settling(seen) && seen != []
    ensures Evidence(c, DoSettle(c, s, seen[0], at).Go(w, Settling(seen[1..])))
  {
    var mid := DoSettle(c, s, seen[0], at);
    assert PcEvidence(s.calls, s.At(w));
    assert Seen(s.calls, seen[0]);
    RetryEvidence(c, s, seen[0], at);
    assert mid.calls == s.calls;
    GoEvidence(c, mid, w, Settling(seen[1..]));
  }

  lemma GoEvidence(c: Campaign, s: Sys, w: WorkerId, pc: Pc)
    requires Evidence(c, s) && PcEvidence(s.calls, pc)
    ensures Evidence(c, s.Go(w, pc))
  {
    forall v: WorkerId ensures PcEvidence(s.calls, s.Go(w, pc).At(v)) {
      assert PcEvidence(s.calls, s.At(v));
    }
    NothingNewKeepsEvidence(c, s, s.Go(w, pc));
  }

  lemma LoudEvidence(c: Campaign, s: Sys, w: WorkerId, move: WorkerMove)
    requires Lives(c, s) && Accounted(s) && Evidence(c, s) && Loud(move)
    ensures Evidence(c, WorkerDo(c, s, w, move))
  {
    match (s.At(w), move) {
      case (Claimed(call, t), BeginPlacing(at)) => BeginPlacingEvidence(c, s, w, call, t, at);
      case (Asking(call, t), AskCarrier(placed)) => AskEvidence(c, s, w, call, t, placed);
      case (Placed(call, t), RecordDial(wrote, heard)) =>
        RecordEvidence(c, s, w, call, t, wrote, if heard then Idle else Unrecorded(call, t));
      case (Settling(seen), SettleOne(at)) =>
        if seen != [] {
          SettleEvidence(c, s, w, seen, at);
        } else {
          GoEvidence(c, s, w, Idle);
        }
      case _ =>
    }
  }

  lemma {:induction false} EveryRunHasEvidence(c: Campaign, init: Sys, steps: seq<Action>)
    requires Fresh(init)
    ensures Evidence(c, After(c, init, steps))
    decreases |steps|
  {
    if steps != [] {
      var before := steps[..|steps| - 1];
      EveryRunHasEvidence(c, init, before);
      EveryRunAccounts(c, init, before);
      match steps[|steps| - 1] {
        case Worker(w, move) =>
          if Loud(move) {
            LoudEvidence(c, After(c, init, before), w, move);
          } else {
            QuietWorkerEvidence(c, After(c, init, before), w, move);
          }
        case Other(step) => OtherEvidence(c, After(c, init, before), step);
      }
    }
  }

  /** In every run, the carrier is asked again for a target only once a recorded call
      for it has ended with a reason the policy dials again: the earlier ask's own call
      exactly when that was not settled from a stale read. */
  lemma AskedAgainOnEvidence(c: Campaign, init: Sys, steps: seq<Action>, i: nat, j: nat) returns (k: nat)
    requires Fresh(init)
    requires
      var log := After(c, init, steps).log;
      i < j < |log| && log[i].Asked? && log[j].Asked? && log[i].target == log[j].target
    ensures
      var s := After(c, init, steps);
      && i < k < j && s.log[k].Retried? && s.log[k].target == s.log[i].target
      && Justified(c, s.calls, s.log[k])
      && (s.log[k].stale <==> s.log[k].call != s.log[i].call)
  {
    var log := After(c, init, steps).log;
    AskedAgainOnlyAfterRetry(c, init, steps, i, j);
    k :| i < k < j && log[k].Retried? && log[k].target == log[i].target
         && (log[k].stale <==> log[k].call != log[i].call);
    EveryRunHasEvidence(c, init, steps);
    assert log[k] in log;
  }
}
