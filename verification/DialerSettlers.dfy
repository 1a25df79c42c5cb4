/**
 One settling pass at a time: then no retry is written from a stale read, and the
 policy's largest number of attempts bounds the dials of every target.
 */
module DialerSettlers {
  import opened Options
  import opened Schedule
  import opened Dialer
  import opened DialerSafety
  import opened DialerRetries
  import opened DialerBounds

  ghost predicate OneSettler(s: Sys) {
    forall w: WorkerId, v: WorkerId :: s.At(w).Settling? && s.At(v).Settling? ==> w == v
  }

  /** The target is on the call that was read, or has ended since. */
  predicate StillIts(s: Sys, e: Ended) {
    && e.target in s.rows
    && ((s.rows[e.target].status == Calling && s.rows[e.target].callId == Some(e.call))
        || s.rows[e.target].status.IsFinal())
  }

  ghost predicate UpToDate(s: Sys, pc: Pc) {
    pc.Settling? ==> EachOnce(pc.seen) && forall e :: e in pc.seen ==> StillIts(s, e)
  }

  ghost predicate AllUpToDate(s: Sys) {
    forall w: WorkerId {:trigger s.At(w)} :: UpToDate(s, s.At(w))
  }

  /** A target on a call stays on it or ends, and one that has ended stays so. */
  ghost predicate CallsStay(rows: map<TargetId, Row>, now: map<TargetId, Row>) {
    forall t :: t in rows ==>
      && t in now
      && (rows[t].status == Calling ==>
            (now[t].status == Calling && now[t].callId == rows[t].callId) || now[t].status.IsFinal())
      && (rows[t].status.IsFinal() ==> now[t].status.IsFinal())
  }

  lemma QuietCallsStay(rows: map<TargetId, Row>, now: map<TargetId, Row>)
    requires QuietRows(rows, now)
    ensures CallsStay(rows, now)
  {
    forall t | t in rows ensures QuietRow(rows[t], now[t]) {
    }
  }

  /** Where every target on a call stays on it, what was read is up to date still. */
  lemma StaysUpToDate(s: Sys, now: Sys, pc: Pc)
    requires UpToDate(s, pc) && CallsStay(s.rows, now.rows)
    ensures UpToDate(now, pc)
  {
  }

  lemma AllStayUpToDate(s: Sys, now: Sys, w: WorkerId)
    requires AllUpToDate(s) && CallsStay(s.rows, now.rows) && UpToDate(now, now.At(w))
    requires forall v: WorkerId :: v != w ==> now.At(v) == s.At(v)
    ensures AllUpToDate(now)
  {
    forall v: WorkerId ensures UpToDate(now, now.At(v)) {
      if v != w {
        StaysUpToDate(s, now, s.At(v));
      }
    }
  }

  lemma ReadingIsUpToDate(s: Sys, seen: seq<Ended>)
    requires EachOnce(seen) && forall e :: e in seen ==> ReadsWhatIsThere(s, e)
    ensures UpToDate(s, Settling(seen))
  {
  }

  lemma ReadUpToDate(c: Campaign, s: Sys, w: WorkerId, seen: seq<Ended>)
    requires AllUpToDate(s)
    ensures AllUpToDate(WorkerDo(c, s, w, ReadEnded(seen)))
  {
    var now := WorkerDo(c, s, w, ReadEnded(seen));
    if now != s {
      ReadingIsUpToDate(s, seen);
      StaysUpToDate(s, now, Settling(seen));
      AllStayUpToDate(s, now, w);
    }
  }

  lemma QuietUpToDate(c: Campaign, s: Sys, w: WorkerId, move: WorkerMove)
    requires AllUpToDate(s) && !Loud(move)
    ensures AllUpToDate(WorkerDo(c, s, w, move))
  {
    if move.ReadEnded? {
      ReadUpToDate(c, s, w, move.seen);
    } else {
      var now := WorkerDo(c, s, w, move);
      QuietWorker(c, s, w, move);
      QuietWorkerLeaves(s, c, w, move);
      QuietCallsStay(s.rows, now.rows);
      StaysUpToDate(s, now, s.At(w));
      AllStayUpToDate(s, now, w);
    }
  }

  lemma OtherUpToDate(s: Sys, step: OtherMove)
    requires AllUpToDate(s)
    ensures AllUpToDate(OtherDo(s, step))
  {
    var now := OtherDo(s, step);
    QuietOther(s, step);
    OtherLeaves(s, step);
    QuietCallsStay(s.rows, now.rows);
    forall v: WorkerId ensures now.At(v) == s.At(v) {
    }
    StaysUpToDate(s, now, s.At(0));
    AllStayUpToDate(s, now, 0);
  }

  predicate AtTheCarrier(move: WorkerMove) {
    move.BeginPlacing? || move.AskCarrier? || move.RecordDial?
  }

  lemma DialLeavesCalls(c: Campaign, s: Sys, w: WorkerId, move: WorkerMove)
    requires AtTheCarrier(move)
    ensures
      var now := WorkerDo(c, s, w, move);
      && CallsStay(s.rows, now.rows) && (now.At(w) == s.At(w) || !now.At(w).Settling?)
      && forall v: WorkerId :: v != w ==> now.At(v) == s.At(v)
  {
    WorkerMoves(c, s, w, move);
    match (s.At(w), move) {
      case (Claimed(call, t), BeginPlacing(at)) => PlacingLeavesCalls(s, w, call, t, at);
      case (Placed(call, t), RecordDial(_, _)) => RecordLeavesCalls(s, call, t);
      case _ =>
    }
  }

  lemma PlacingLeavesCalls(s: Sys, w: WorkerId, call: CallId, t: TargetId, at: Instant)
    ensures CallsStay(s.rows, DoBeginPlacing(s, w, call, t, at).rows)
  {
  }

  lemma RecordLeavesCalls(s: Sys, call: CallId, t: TargetId)
    ensures CallsStay(s.rows, DoRecord(s, call, t).rows)
  {
  }

  lemma DialUpToDate(c: Campaign, s: Sys, w: WorkerId, move: WorkerMove)
    requires AllUpToDate(s) && AtTheCarrier(move)
    ensures AllUpToDate(WorkerDo(c, s, w, move))
  {
    var now := WorkerDo(c, s, w, move);
    DialLeavesCalls(c, s, w, move);
    StaysUpToDate(s, now, s.At(w));
    AllStayUpToDate(s, now, w);
  }

  /** A target not settled now is left as it is. */
  lemma SettlingLeaves(c: Campaign, s: Sys, e: Ended, at: Instant, other: Ended)
    requires other.target != e.target && StillIts(s, other)
    ensures StillIts(DoSettle(c, s, e, at), other)
  {
  }

  lemma SettleUpToDate(c: Campaign, s: Sys, w: WorkerId, seen: seq<Ended>, at: Instant)
    requires AllUpToDate(s) && OneSettler(s) && s.At(w) == Settling(seen) && seen != []
    ensures AllUpToDate(DoSettle(c, s, seen[0], at).Go(w, Settling(seen[1..])))
  {
    var now := DoSettle(c, s, seen[0], at).Go(w, Settling(seen[1..]));
    assert UpToDate(s, s.At(w));
    forall e | e in seen[1..] ensures StillIts(now, e) {
      var i :| 1 <= i < |seen| && seen[i] == e;
      SettlingLeaves(c, s, seen[0], at, e);
    }
    forall v: WorkerId ensures UpToDate(now, now.At(v)) {
      assert v != w ==> now.At(v) == s.At(v);
    }
  }

  /** What is written from a read that is up to date is not stale. */
  lemma NothingStale(c: Campaign, s: Sys, e: Ended, at: Instant, t: TargetId)
    requires StillIts(s, e)
    ensures Stales(DoSettle(c, s, e, at).log, t) == Stales(s.log, t)
  {
    var now := DoSettle(c, s, e, at);
    if now.log != s.log {
      CountsAfter(s.log, now.log[|s.log|], t);
    }
  }

  lemma DialStales(c: Campaign, s: Sys, w: WorkerId, move: WorkerMove, t: TargetId)
    requires AtTheCarrier(move)
    ensures Stales(WorkerDo(c, s, w, move).log, t) == Stales(s.log, t)
  {
    match (s.At(w), move) {
      case (Claimed(call, x), BeginPlacing(_)) => CountsAfter(s.log, BeganPlacing(x, call), t);
      case (Asking(call, x), AskCarrier(_)) => AskCounts(s.log, x, call, t);
      case _ =>
    }
  }

  lemma SettlerStep(c: Campaign, s: Sys, w: WorkerId, at: Instant, t: TargetId)
    requires AllUpToDate(s) && OneSettler(s)
    ensures
      var now := WorkerDo(c, s, w, SettleOne(at));
      AllUpToDate(now) && Stales(now.log, t) == Stales(s.log, t)
  {
    if s.At(w).Settling? {
      var seen := s.At(w).seen;
      if seen == [] {
        StaysUpToDate(s, s.Go(w, Idle), Idle);
        AllStayUpToDate(s, s.Go(w, Idle), w);
      } else {
        assert UpToDate(s, s.At(w));
        assert seen[0] in seen;
        NothingStale(c, s, seen[0], at, t);
        SettleUpToDate(c, s, w, seen, at);
      }
    }
  }

  lemma WorkerStep(c: Campaign, s: Sys, w: WorkerId, move: WorkerMove, t: TargetId)
    requires AllUpToDate(s) && OneSettler(s)
    ensures
      var now := WorkerDo(c, s, w, move);
      AllUpToDate(now) && Stales(now.log, t) == Stales(s.log, t)
  {
    if move.SettleOne? {
      SettlerStep(c, s, w, move.now, t);
    } else if AtTheCarrier(move) {
      DialUpToDate(c, s, w, move);
      DialStales(c, s, w, move, t);
    } else {
      QuietUpToDate(c, s, w, move);
      QuietWorker(c, s, w, move);
      QuietCounts(s.log, WorkerDo(c, s, w, move).log, t);
    }
  }

  lemma OtherStep(s: Sys, step: OtherMove, t: TargetId)
    requires AllUpToDate(s)
    ensures AllUpToDate(OtherDo(s, step)) && Stales(OtherDo(s, step).log, t) == Stales(s.log, t)
  {
    OtherUpToDate(s, step);
    QuietOther(s, step);
    QuietCounts(s.log, OtherDo(s, step).log, t);
  }

  /** At no moment of the run do two workers settle. */
  ghost predicate SettledInTurn(c: Campaign, init: Sys, steps: seq<Action>) {
    forall k :: 0 <= k <= |steps| ==> OneSettler(After(c, init, steps[..k]))
  }

  lemma {:induction false} InTurnNeverStale(c: Campaign, init: Sys, steps: seq<Action>, t: TargetId)
    requires Fresh(init) && SettledInTurn(c, init, steps)
    ensures AllUpToDate(After(c, init, steps)) && Stales(After(c, init, steps).log, t) == 0
    decreases |steps|
  {
    if steps != [] {
      var n := |steps| - 1;
      var before := steps[..n];
      assert SettledInTurn(c, init, before) by {
        forall k | 0 <= k <= |before| ensures OneSettler(After(c, init, before[..k])) {
          assert before[..k] == steps[..k];
        }
      }
      InTurnNeverStale(c, init, before, t);
      match steps[n] {
        case Worker(w, move) => WorkerStep(c, After(c, init, before), w, move, t);
        case Other(step) => OtherStep(After(c, init, before), step, t);
      }
    }
  }

  /** In every run in which settling passes do not overlap, no retry is stale, and the
      carrier is asked for a target at most as often as the largest number of attempts any
      rule allows, or once if none does. */
  lemma DialsAreBoundedInTurn(c: Campaign, init: Sys, steps: seq<Action>, t: TargetId, m: nat)
    requires Fresh(init) && SettledInTurn(c, init, steps) && Covers(c.policy, m)
    ensures
      var log := After(c, init, steps).log;
      Stales(log, t) == 0 && Asks(log, t) <= m
  {
    InTurnNeverStale(c, init, steps, t);
    DialsAreBounded(c, init, steps, t, m);
  }

  // ----- one worker

  /** Only worker `w` reads ended calls. */
  predicate SettledBy(w: WorkerId, steps: seq<Action>) {
    forall a :: a in steps && a.Worker? && a.move.ReadEnded? ==> a.w == w
  }

  ghost predicate NoneSettlesBut(s: Sys, w: WorkerId) {
    forall v: WorkerId :: s.At(v).Settling? ==> v == w
  }

  lemma StepSettlesBy(c: Campaign, s: Sys, a: Action, w: WorkerId)
    requires NoneSettlesBut(s, w) && (a.Worker? && a.move.ReadEnded? ==> a.w == w)
    ensures NoneSettlesBut(Do(c, s, a), w)
  {
    match a {
      case Worker(v, move) =>
        WorkerMoves(c, s, v, move);
        if !move.ReadEnded? {
          SettlesOnlyAfterReading(c, s, v, move);
        }
      case Other(step) => OtherLeaves(s, step);
    }
    forall v: WorkerId | v != w ensures !Do(c, s, a).At(v).Settling? {
      if a.Worker? && a.w == v {
      } else {
        OthersLeaveIt(c, s, a, v);
      }
    }
  }

  lemma SettlesOnlyAfterReading(c: Campaign, s: Sys, w: WorkerId, move: WorkerMove)
    requires !move.ReadEnded?
    ensures WorkerDo(c, s, w, move).At(w).Settling? ==> s.At(w).Settling?
  {
    if AtTheCarrier(move) {
      DialLeavesCalls(c, s, w, move);
    } else if !move.SettleOne? {
      QuietWorkerLeaves(s, c, w, move);
    }
  }

  lemma {:induction false} OneReaderSettlesInTurn(c: Campaign, init: Sys, steps: seq<Action>, w: WorkerId)
    requires Fresh(init) && SettledBy(w, steps)
    ensures NoneSettlesBut(After(c, init, steps), w) && SettledInTurn(c, init, steps)
    decreases |steps|
  {
    var n := |steps|;
    assert steps[..n] == steps;
    if n > 0 {
      OneReaderSettlesInTurn(c, init, steps[..n - 1], w);
      StepSettlesBy(c, After(c, init, steps[..n - 1]), steps[n - 1], w);
      forall k | 0 <= k <= n ensures OneSettler(After(c, init, steps[..k])) {
        if k < n {
          assert steps[..n - 1][..k] == steps[..k];
        }
      }
    }
  }

  /** So it is wherever one worker does all the settling, however many dial. */
  lemma DialsAreBoundedByOneSettler(c: Campaign, init: Sys, steps: seq<Action>, w: WorkerId, t: TargetId, m: nat)
    requires Fresh(init) && SettledBy(w, steps) && Covers(c.policy, m)
    ensures Asks(After(c, init, steps).log, t) <= m
  {
    OneReaderSettlesInTurn(c, init, steps, w);
    DialsAreBoundedInTurn(c, init, steps, t, m);
  }
}
