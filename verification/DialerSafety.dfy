/**
 Nobody is called twice: what every run of the dialler keeps about who is at the
 carrier for which target, and when the carrier may be asked again.
 */
module DialerSafety {
  import opened Options
  import opened Schedule
  import opened Dialer

  // ----- quiet steps: those that neither reach the carrier nor come back from it

  predicate AtCarrier(pc: Pc) {
    pc.Asking? || pc.Placed?
  }

  predicate Telling(e: Event) {
    e.Asked? || e.Retried?
  }

  /** A row's change that is no news about its calls: a claim taken or handed back,
      a later due time, or its end. */
  predicate QuietRow(row: Row, now: Row) {
    && now.attempts == row.attempts && now.callId == row.callId
    && (row.nextAttemptAt.Some? ==> now.nextAttemptAt.Some? && row.nextAttemptAt.value <= now.nextAttemptAt.value)
    && (now.status == row.status
        || (row.status in {Pending, Dialling} && now.status in {Pending, Dialling})
        || (!row.status.IsFinal() && now.status.IsFinal()))
  }

  /** The log is as it was, or one event longer that is no news about calls. */
  ghost predicate QuietLog(log: seq<Event>, now: seq<Event>) {
    now == log || (|now| == |log| + 1 && now == log + [now[|log|]] && !Telling(now[|log|]))
  }

  ghost predicate QuietRows(rows: map<TargetId, Row>, now: map<TargetId, Row>) {
    now.Keys == rows.Keys && forall t :: t in rows ==> QuietRow(rows[t], now[t])
  }

  /** From `s` to `now` no worker gets to the carrier, or moves there. */
  ghost predicate Quiet(s: Sys, now: Sys) {
    && (forall v: WorkerId :: now.At(v) == s.At(v) || !AtCarrier(now.At(v)))
    && QuietRows(s.rows, now.rows)
    && QuietLog(s.log, now.log)
  }

  lemma FinishIsQuiet(s: Sys, t: TargetId, status: TargetStatus)
    requires status.IsFinal()
    ensures var now := DoFinish(s, t, status);
      QuietRows(s.rows, now.rows) && now == s.(rows := now.rows)
  {
  }

  lemma UnclaimIsQuiet(s: Sys, t: TargetId)
    ensures var now := DoUnclaim(s, t);
      QuietRows(s.rows, now.rows) && now == s.(rows := now.rows)
  {
  }

  lemma ClaimIsQuiet(c: Campaign, s: Sys, w: WorkerId, call: CallId, t: TargetId, now: Instant)
    requires s.In(t, {Pending}) && Due(s.rows[t], now)
    ensures Quiet(s, DoClaim(c, s, w, call, t, now))
  {
    NowIsInWindow(c.zone(t), c.window, now);
  }

  lemma GoIsQuiet(s: Sys, mid: Sys, w: WorkerId, pc: Pc)
    requires mid.pcs == s.pcs && !AtCarrier(pc)
    requires QuietRows(s.rows, mid.rows) && QuietLog(s.log, mid.log)
    ensures Quiet(s, mid.Go(w, pc))
  {
  }

  lemma HandBackIsQuiet(s: Sys, w: WorkerId, call: CallId, t: TargetId, why: Why)
    ensures Quiet(s, DoHandBack(s, t, why).Go(w, Returning(call)))
  {
    UnclaimIsQuiet(s, t);
    FinishIsQuiet(s, t, Suppressed);
    FinishIsQuiet(s, t, Failed);
    GoIsQuiet(s, DoHandBack(s, t, why), w, Returning(call));
  }

  lemma GiveUpIsQuiet(s: Sys, w: WorkerId, t: TargetId, wrote: bool)
    ensures Quiet(s, (if wrote then DoFinish(s, t, Failed) else s).Go(w, Idle))
  {
    FinishIsQuiet(s, t, Failed);
    GoIsQuiet(s, if wrote then DoFinish(s, t, Failed) else s, w, Idle);
  }

  predicate Loud(move: WorkerMove) {
    move.BeginPlacing? || move.AskCarrier? || move.RecordDial? || move.SettleOne?
  }

  predicate TouchesRows(move: WorkerMove) {
    move.Claim? || move.GiveUpRecording? || move.HandBack?
  }

  lemma StillIsQuiet(s: Sys)
    ensures Quiet(s, s)
  {
  }

  /** Every other step of a worker is quiet. */
  lemma QuietWorker(c: Campaign, s: Sys, w: WorkerId, move: WorkerMove)
    requires !Loud(move)
    ensures Quiet(s, WorkerDo(c, s, w, move))
  {
    match (s.At(w), move) {
      case (Reserved(call), Claim(t, now)) =>
        if s.In(t, {Pending}) && Due(s.rows[t], now) {
          ClaimIsQuiet(c, s, w, call, t, now);
        }
      case (Unrecorded(_, t), GiveUpRecording(wrote)) => GiveUpIsQuiet(s, w, t, wrote);
      case (NotDialled(call, t, why), HandBack) => HandBackIsQuiet(s, w, call, t, why);
      case _ =>
        if !TouchesRows(move) {
          QuietBookkeeping(c, s, w, move);
        }
    }
    StillIsQuiet(s);
  }

  lemma ReserveIsQuiet(s: Sys, w: WorkerId, call: CallId)
    ensures Quiet(s, s.(slots := s.slots + {call}).Note(Took(call)).Go(w, Reserved(call)))
  {
    GoIsQuiet(s, s.(slots := s.slots + {call}).Note(Took(call)), w, Reserved(call));
  }

  lemma GiveBackIsQuiet(s: Sys, w: WorkerId, call: CallId)
    ensures Quiet(s, s.(slots := s.slots - {call}).Note(Freed(call)).Go(w, Idle))
  {
    GoIsQuiet(s, s.(slots := s.slots - {call}).Note(Freed(call)), w, Idle);
  }

  lemma QuietBookkeeping(c: Campaign, s: Sys, w: WorkerId, move: WorkerMove)
    requires !Loud(move) && !TouchesRows(move)
    ensures Quiet(s, WorkerDo(c, s, w, move))
  {
    match (s.At(w), move) {
      case (Idle, Reserve(call)) => ReserveIsQuiet(s, w, call);
      case (Reserved(call), ClaimNothing) => GoIsQuiet(s, s, w, Returning(call));
      case (Claimed(call, t), RefuseEarly(why, freed)) =>
        GoIsQuiet(s, s.(slots := if freed then s.slots - {call} else s.slots), w, NotDialled(call, t, why));
      case (Returning(call), GiveBack) => GiveBackIsQuiet(s, w, call);
      case (pc, Die) => GoIsQuiet(s, s.(orphans := s.orphans + Holding(pc)), w, Idle);
      case (Idle, ReadEnded(seen)) => GoIsQuiet(s, s, w, Settling(seen));
      case _ =>
    }
    StillIsQuiet(s);
  }

  /** So is every step that is no worker's. */
  lemma QuietOther(s: Sys, step: OtherMove)
    ensures Quiet(s, OtherDo(s, step))
  {
  }

  // ----- what the log says of a target

  function AskAfter(before: Option<CallId>, e: Event, t: TargetId): Option<CallId> {
    if e.Asked? && e.target == t then Some(e.call)
    else if e.Retried? && e.target == t then None
    else before
  }

  /** The ask for a target that no retry has answered yet, if there is one. */
  function OpenAsk(log: seq<Event>, t: TargetId): Option<CallId>
    decreases |log|
  {
    if log == [] then None else AskAfter(OpenAsk(log[..|log| - 1], t), log[|log| - 1], t)
  }

  lemma OpenAskAfter(log: seq<Event>, e: Event, t: TargetId)
    ensures OpenAsk(log + [e], t) == AskAfter(OpenAsk(log, t), e, t)
  {
    assert (log + [e])[..|log|] == log;
  }

  /** An ask comes only when none is open, and a retry only when one is: stale exactly
      when it is not about that ask's own call. */
  ghost predicate InTurn(log: seq<Event>, e: Event) {
    && (e.Asked? ==> OpenAsk(log, e.target).None?)
    && (e.Retried? ==> OpenAsk(log, e.target).Some? && (e.stale <==> OpenAsk(log, e.target) != Some(e.call)))
  }

  ghost predicate AllInTurn(log: seq<Event>) {
    forall i :: 0 <= i < |log| ==> InTurn(log[..i], log[i])
  }

  lemma OneMoreInTurn(log: seq<Event>, e: Event)
    requires AllInTurn(log) && InTurn(log, e)
    ensures AllInTurn(log + [e])
  {
    var now := log + [e];
    forall i | 0 <= i < |now| ensures InTurn(now[..i], now[i]) {
      assert now[..i] == log[..i];
      assert log[..|log|] == log;
    }
  }

  // ----- who is at the carrier, and what the log says of it

  const PAST_THE_CLAIM: set<TargetStatus> := {Placing, Completed, Suppressed, Failed, Cancelled}

  /** A target some worker is at the carrier for is being placed, or was ended
      meanwhile; and no two workers are there for one target. */
  ghost predicate OneAtCarrier(s: Sys) {
    && (forall w: WorkerId :: AtCarrier(s.At(w)) ==> s.In(s.At(w).target, PAST_THE_CLAIM))
    && (forall w, v: WorkerId ::
          AtCarrier(s.At(w)) && AtCarrier(s.At(v)) && s.At(w).target == s.At(v).target ==> w == v)
  }

  /** A waiting or claimed target has no open ask, a calling one has its call's,
      and a worker at the carrier has asked exactly if the call was placed. */
  ghost predicate Told(s: Sys) {
    && (forall t :: t in s.rows && s.rows[t].status in {Pending, Dialling} ==> OpenAsk(s.log, t).None?)
    && (forall t :: s.In(t, {Calling}) ==> s.rows[t].callId.Some? && OpenAsk(s.log, t) == s.rows[t].callId)
    && (forall w: WorkerId :: s.At(w).Asking? ==> OpenAsk(s.log, s.At(w).target).None?)
    && (forall w: WorkerId :: s.At(w).Placed? ==> OpenAsk(s.log, s.At(w).target) == Some(s.At(w).call))
  }

  ghost predicate Safe(s: Sys) {
    OneAtCarrier(s) && Told(s) && AllInTurn(s.log)
  }

  lemma QuietLogSaysNothing(log: seq<Event>, now: seq<Event>, t: TargetId)
    requires QuietLog(log, now)
    ensures OpenAsk(now, t) == OpenAsk(log, t)
    ensures AllInTurn(log) ==> AllInTurn(now)
  {
    if now != log {
      OpenAskAfter(log, now[|log|], t);
      if AllInTurn(log) {
        OneMoreInTurn(log, now[|log|]);
      }
    }
  }

  lemma QuietKeepsOneAtCarrier(s: Sys, now: Sys)
    requires OneAtCarrier(s) && Quiet(s, now)
    ensures OneAtCarrier(now)
  {
  }

  lemma QuietKeepsTold(s: Sys, now: Sys)
    requires Told(s) && Quiet(s, now)
    ensures Told(now)
  {
    forall t ensures OpenAsk(now.log, t) == OpenAsk(s.log, t) {
      QuietLogSaysNothing(s.log, now.log, t);
    }
  }

  lemma QuietIsSafe(s: Sys, now: Sys)
    requires Safe(s) && Quiet(s, now)
    ensures Safe(now)
  {
    QuietKeepsOneAtCarrier(s, now);
    QuietKeepsTold(s, now);
    QuietLogSaysNothing(s.log, now.log, 0);
  }

  // ----- the steps to the carrier and back

  /** From `s` to `now` only worker `w` and target `t` move, with nobody else at the
      carrier for `t`. */
  ghost predicate OneMove(s: Sys, now: Sys, w: WorkerId, t: TargetId) {
    && (forall v: WorkerId :: v != w ==> now.At(v) == s.At(v))
    && (forall v: WorkerId :: v != w && AtCarrier(s.At(v)) ==> s.At(v).target != t)
    && (forall x :: x in now.rows && x != t ==> x in s.rows && now.rows[x] == s.rows[x])
    && s.rows.Keys <= now.rows.Keys
    && (forall x :: x != t ==> OpenAsk(now.log, x) == OpenAsk(s.log, x))
    && (AtCarrier(now.At(w)) ==> now.At(w).target == t)
  }

  /** What `Safe` asks of that worker and target. */
  ghost predicate SafeHere(now: Sys, w: WorkerId, t: TargetId) {
    && (AtCarrier(now.At(w)) ==> now.In(t, PAST_THE_CLAIM))
    && (now.At(w).Asking? ==> OpenAsk(now.log, t).None?)
    && (now.At(w).Placed? ==> OpenAsk(now.log, t) == Some(now.At(w).call))
    && (now.In(t, {Pending, Dialling}) ==> OpenAsk(now.log, t).None?)
    && (now.In(t, {Calling}) ==> now.rows[t].callId.Some? && OpenAsk(now.log, t) == now.rows[t].callId)
  }

  lemma OneMoveKeepsOneAtCarrier(s: Sys, now: Sys, w: WorkerId, t: TargetId)
    requires OneAtCarrier(s) && OneMove(s, now, w, t) && SafeHere(now, w, t)
    ensures OneAtCarrier(now)
  {
    forall v: WorkerId | AtCarrier(now.At(v)) ensures now.In(now.At(v).target, PAST_THE_CLAIM) {
      assert v != w ==> now.At(v) == s.At(v) && s.At(v).target != t;
    }
    forall v, u: WorkerId | AtCarrier(now.At(v)) && AtCarrier(now.At(u)) && now.At(v).target == now.At(u).target
      ensures v == u
    {
      assert v != w ==> now.At(v) == s.At(v) && s.At(v).target != t;
      assert u != w ==> now.At(u) == s.At(u) && s.At(u).target != t;
    }
  }

  lemma OneMoveKeepsTold(s: Sys, now: Sys, w: WorkerId, t: TargetId)
    requires Told(s) && OneMove(s, now, w, t) && SafeHere(now, w, t)
    ensures Told(now)
  {
    forall v: WorkerId | AtCarrier(now.At(v))
      ensures now.At(v).Asking? ==> OpenAsk(now.log, now.At(v).target).None?
      ensures now.At(v).Placed? ==> OpenAsk(now.log, now.At(v).target) == Some(now.At(v).call)
    {
      assert v != w ==> now.At(v) == s.At(v) && s.At(v).target != t;
    }
  }

  lemma OneMoveIsSafe(s: Sys, now: Sys, w: WorkerId, t: TargetId)
    requires Safe(s) && OneMove(s, now, w, t) && SafeHere(now, w, t) && AllInTurn(now.log)
    ensures Safe(now)
  {
    OneMoveKeepsOneAtCarrier(s, now, w, t);
    OneMoveKeepsTold(s, now, w, t);
  }

  lemma OpenAsksAfter(log: seq<Event>, e: Event)
    ensures forall t {:trigger OpenAsk(log + [e], t)} :: OpenAsk(log + [e], t) == AskAfter(OpenAsk(log, t), e, t)
  {
    forall t {
      OpenAskAfter(log, e, t);
    }
  }

  lemma BeginPlacingIsSafe(s: Sys, w: WorkerId, call: CallId, t: TargetId, at: Instant)
    requires Safe(s) && s.At(w) == Claimed(call, t)
    ensures Safe(DoBeginPlacing(s, w, call, t, at))
  {
    var now := DoBeginPlacing(s, w, call, t, at);
    if s.In(t, {Dialling}) && s.status == Running {
      OpenAsksAfter(s.log, BeganPlacing(t, call));
      OneMoreInTurn(s.log, BeganPlacing(t, call));
      OneMoveIsSafe(s, now, w, t);
    } else {
      var mid := s.(slots := s.slots - {call}, lapsed := s.lapsed - {call});
      GoIsQuiet(s, mid, w, NotDialled(call, t, LostClaim));
      QuietIsSafe(s, now);
    }
  }

  lemma AskedIsInTurn(log: seq<Event>, t: TargetId, call: CallId)
    requires AllInTurn(log) && OpenAsk(log, t).None?
    ensures AllInTurn(log + [Asked(t, call)]) && AllInTurn(log + [Asked(t, call)] + [Rang(call)])
    ensures OpenAsk(log + [Asked(t, call)], t) == OpenAsk(log + [Asked(t, call)] + [Rang(call)], t) == Some(call)
    ensures forall x :: x != t ==> OpenAsk(log + [Asked(t, call)], x) == OpenAsk(log, x)
    ensures forall x :: x != t ==> OpenAsk(log + [Asked(t, call)] + [Rang(call)], x) == OpenAsk(log, x)
  {
    OpenAsksAfter(log, Asked(t, call));
    OneMoreInTurn(log, Asked(t, call));
    OpenAsksAfter(log + [Asked(t, call)], Rang(call));
    OneMoreInTurn(log + [Asked(t, call)], Rang(call));
  }

  lemma AskIsSafe(c: Campaign, s: Sys, w: WorkerId, call: CallId, t: TargetId, placed: bool)
    requires Safe(s) && s.At(w) == Asking(call, t)
    ensures Safe(WorkerDo(c, s, w, AskCarrier(placed)))
  {
    AskedIsInTurn(s.log, t, call);
    if placed {
      AskMoves(s, s.(ringing := s.ringing + {call}).Note(Asked(t, call)).Note(Rang(call)), w, call, t, Placed(call, t));
    } else {
      AskMoves(s, s.(slots := s.slots - {call}).Note(Asked(t, call)), w, call, t, NotDialled(call, t, Refused(false)));
    }
  }

  lemma AskMoves(s: Sys, mid: Sys, w: WorkerId, call: CallId, t: TargetId, pc: Pc)
    requires Safe(s) && s.At(w) == Asking(call, t) && mid.rows == s.rows && mid.pcs == s.pcs
    requires AllInTurn(mid.log) && OpenAsk(mid.log, t) == Some(call)
    requires forall x :: x != t ==> OpenAsk(mid.log, x) == OpenAsk(s.log, x)
    requires pc == Placed(call, t) || !AtCarrier(pc)
    ensures Safe(mid.Go(w, pc))
  {
    assert AtCarrier(s.At(w));
    OneMoveIsSafe(s, mid.Go(w, pc), w, t);
  }

  lemma RecordIsSafe(c: Campaign, s: Sys, w: WorkerId, wrote: bool, heard: bool)
    requires Safe(s) && s.At(w).Placed?
    ensures Safe(WorkerDo(c, s, w, RecordDial(wrote, heard)))
  {
    var call, t := s.At(w).call, s.At(w).target;
    if wrote || !heard {
      RecordMoves(s, if wrote then DoRecord(s, call, t) else s, w, call, t, if heard then Idle else Unrecorded(call, t));
    }
  }

  lemma RecordMoves(s: Sys, mid: Sys, w: WorkerId, call: CallId, t: TargetId, pc: Pc)
    requires Safe(s) && s.At(w) == Placed(call, t) && !AtCarrier(pc)
    requires mid == s || mid == DoRecord(s, call, t)
    ensures Safe(mid.Go(w, pc))
  {
    assert AtCarrier(s.At(w));
    OneMoveIsSafe(s, mid.Go(w, pc), w, t);
  }

  lemma RetryIsSafe(s: Sys, w: WorkerId, e: Ended, seen: Instant, at: Instant, rest: seq<Ended>)
    requires Safe(s) && s.In(e.target, {Calling}) && !AtCarrier(s.At(w))
    ensures
      var row := s.rows[e.target];
      Safe(s.Put(e.target, row.(status := Pending, nextAttemptAt := Some(at)))
        .Note(Retried(e.target, e.call, e.reason, seen, at, row.callId != Some(e.call))).Go(w, Settling(rest)))
  {
    var row := s.rows[e.target];
    var said := Retried(e.target, e.call, e.reason, seen, at, row.callId != Some(e.call));
    var now := s.Put(e.target, row.(status := Pending, nextAttemptAt := Some(at))).Note(said).Go(w, Settling(rest));
    OpenAsksAfter(s.log, said);
    OneMoreInTurn(s.log, said);
    OneMoveIsSafe(s, now, w, e.target);
  }

  lemma SettleIsSafe(c: Campaign, s: Sys, w: WorkerId, seen: seq<Ended>, now: Instant)
    requires Safe(s) && s.At(w) == Settling(seen) && seen != []
    ensures Safe(DoSettle(c, s, seen[0], now).Go(w, Settling(seen[1..])))
  {
    var e := seen[0];
    var at := RetryAt(c.policy, e.reason, e.attempts, now, c.zone(e.target), c.window);
    if at.Some? && s.In(e.target, {Calling}) {
      RetryIsSafe(s, w, e, now, at.value, seen[1..]);
    } else {
      FinishIsQuiet(s, e.target, Completed);
      GoIsQuiet(s, DoSettle(c, s, e, now), w, Settling(seen[1..]));
      QuietIsSafe(s, DoSettle(c, s, e, now).Go(w, Settling(seen[1..])));
    }
  }

  lemma LoudStepIsSafe(c: Campaign, s: Sys, w: WorkerId, move: WorkerMove)
    requires Safe(s) && Loud(move)
    ensures Safe(WorkerDo(c, s, w, move))
  {
    match (s.At(w), move) {
      case (Claimed(call, t), BeginPlacing(at)) => BeginPlacingIsSafe(s, w, call, t, at);
      case (Asking(call, t), AskCarrier(placed)) => AskIsSafe(c, s, w, call, t, placed);
      case (Placed(call, t), RecordDial(wrote, heard)) => RecordIsSafe(c, s, w, wrote, heard);
      case (Settling(seen), SettleOne(at)) =>
        if seen != [] {
          SettleIsSafe(c, s, w, seen, at);
        } else {
          GoIsQuiet(s, s, w, Idle);
          QuietIsSafe(s, s.Go(w, Idle));
        }
      case _ =>
    }
  }

  lemma StepIsSafe(c: Campaign, s: Sys, a: Action)
    requires Safe(s)
    ensures Safe(Do(c, s, a))
  {
    match a {
      case Worker(w, move) =>
        if Loud(move) {
          LoudStepIsSafe(c, s, w, move);
        } else {
          QuietWorker(c, s, w, move);
          QuietIsSafe(s, WorkerDo(c, s, w, move));
        }
      case Other(step) =>
        QuietOther(s, step);
        QuietIsSafe(s, OtherDo(s, step));
    }
  }

  lemma {:induction false} EveryRunIsSafe(c: Campaign, init: Sys, steps: seq<Action>)
    requires Fresh(init)
    ensures Safe(After(c, init, steps))
    decreases |steps|
  {
    if steps != [] {
      EveryRunIsSafe(c, init, steps[..|steps| - 1]);
      StepIsSafe(c, After(c, init, steps[..|steps| - 1]), steps[|steps| - 1]);
    }
  }

  // ----- what every run keeps

  /** Between positions `i` and `j` a retry answered the ask at `i`: it was about that
      ask's own call, unless it was stale and only then. */
  ghost predicate Answered(log: seq<Event>, i: nat, j: nat) {
    && i < |log| && log[i].Asked?
    && exists k :: i < k < j && k < |log| && log[k].Retried? && log[k].target == log[i].target
                   && (log[k].stale <==> log[k].call != log[i].call)
  }

  lemma {:induction false} AnsweredOrOpen(log: seq<Event>, i: nat, n: nat)
    requires AllInTurn(log) && i < n <= |log| && log[i].Asked?
    ensures Answered(log, i, n) || OpenAsk(log[..n], log[i].target) == Some(log[i].call)
    decreases n
  {
    var t := log[i].target;
    assert log[..n] == log[..n - 1] + [log[n - 1]];
    OpenAskAfter(log[..n - 1], log[n - 1], t);
    if i + 1 < n {
      AnsweredOrOpen(log, i, n - 1);
      assert InTurn(log[..n - 1], log[n - 1]);
    }
  }

  /** In every run, between two asks of the carrier for one target lies a retry of
      that target: of the first ask's own call, or of an earlier one exactly when it is
      stale. */
  lemma AskedAgainOnlyAfterRetry(c: Campaign, init: Sys, steps: seq<Action>, i: nat, j: nat)
    requires Fresh(init)
    requires
      var log := After(c, init, steps).log;
      i < j < |log| && log[i].Asked? && log[j].Asked? && log[i].target == log[j].target
    ensures Answered(After(c, init, steps).log, i, j)
  {
    var log := After(c, init, steps).log;
    EveryRunIsSafe(c, init, steps);
    AnsweredOrOpen(log, i, j);
    assert InTurn(log[..j], log[j]);
  }

  /** No target is ever at two workers' carriers at once. */
  lemma NeverTwoAtTheCarrier(c: Campaign, init: Sys, steps: seq<Action>, w: WorkerId, v: WorkerId)
    requires Fresh(init)
    ensures
      var s := After(c, init, steps);
      AtCarrier(s.At(w)) && AtCarrier(s.At(v)) && s.At(w).target == s.At(v).target ==> w == v
  {
    EveryRunIsSafe(c, init, steps);
  }

  ghost predicate FinalsKept(rows: map<TargetId, Row>, now: map<TargetId, Row>) {
    now.Keys == rows.Keys && forall t :: t in rows && rows[t].status.IsFinal() ==> now[t].status == rows[t].status
  }

  lemma LoudKeepsFinals(c: Campaign, s: Sys, w: WorkerId, move: WorkerMove)
    requires Loud(move)
    ensures FinalsKept(s.rows, WorkerDo(c, s, w, move).rows)
  {
    match (s.At(w), move) {
      case (Settling(seen), SettleOne(at)) =>
        if seen != [] {
          SettleKeepsFinals(c, s, seen[0], at);
        }
      case _ =>
        if !move.SettleOne? {
          DialKeepsFinals(c, s, w, move);
        }
    }
  }

  lemma SettleKeepsFinals(c: Campaign, s: Sys, e: Ended, at: Instant)
    ensures FinalsKept(s.rows, DoSettle(c, s, e, at).rows)
  {
  }

  lemma DialKeepsFinals(c: Campaign, s: Sys, w: WorkerId, move: WorkerMove)
    requires move.BeginPlacing? || move.AskCarrier? || move.RecordDial?
    ensures FinalsKept(s.rows, WorkerDo(c, s, w, move).rows)
  {
  }

  lemma StepKeepsFinals(c: Campaign, s: Sys, a: Action)
    ensures FinalsKept(s.rows, Do(c, s, a).rows)
  {
    match a {
      case Worker(w, move) =>
        if Loud(move) {
          LoudKeepsFinals(c, s, w, move);
        } else {
          QuietWorker(c, s, w, move);
        }
      case Other(step) => QuietOther(s, step);
    }
  }

  /** A final status is never left, and no target comes or goes, whatever happens next. */
  lemma {:induction false} FinalForGood(c: Campaign, s: Sys, steps: seq<Action>)
    ensures FinalsKept(s.rows, After(c, s, steps).rows)
    decreases |steps|
  {
    if steps != [] {
      FinalForGood(c, s, steps[..|steps| - 1]);
      StepKeepsFinals(c, After(c, s, steps[..|steps| - 1]), steps[|steps| - 1]);
    }
  }
}
