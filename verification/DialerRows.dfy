/**
 A target's row: the diagram every step keeps to. For each change of status, which step
 of which process may make it, from where, and the whole row it leaves.
 */
module DialerRows {
  import opened Options
  import opened Schedule
  import opened Dialer

  function RowOf(s: Sys, t: TargetId): Option<Row> {
    if t in s.rows then Some(s.rows[t]) else None
  }

  /** Of all rows only this target's may differ. */
  ghost predicate OnlyRow(s: Sys, now: Sys, t: TargetId) {
    forall u: TargetId :: u != t ==> RowOf(now, u) == RowOf(s, u)
  }

  /** The same target with the same history: its dials, its last call. */
  predicate SameDials(was: Row, now: Row) {
    now.attempts == was.attempts && now.callId == was.callId
  }

  /** Claimed: a worker has it from `at` on. */
  predicate TakenUp(was: Row, now: Row, at: Instant) {
    && now.status == Dialling && now.claimedAt == Some(at)
    && SameDials(was, now) && now.nextAttemptAt == was.nextAttemptAt
  }

  /** Claimed outside its calling window: it waits, unclaimed, until that next opens. */
  ghost predicate PutOff(c: Campaign, t: TargetId, was: Row, now: Row, at: Instant) {
    && now.status == Pending && now.claimedAt == None && SameDials(was, now)
    && now.nextAttemptAt.Some? && at < now.nextAttemptAt.value
    && OpensAt(c.zone(t), c.window, at, now.nextAttemptAt.value)
  }

  /** About to be asked for at the carrier, from `at` on. */
  predicate BeingPlaced(was: Row, now: Row, at: Instant) {
    && now.status == Placing && now.claimedAt == Some(at)
    && SameDials(was, now) && now.nextAttemptAt == was.nextAttemptAt
  }

  /** Its dial is recorded: one more, as this call. */
  predicate OnTheCall(was: Row, now: Row, call: CallId) {
    && now.status == Calling && now.claimedAt == None
    && now.attempts == was.attempts + 1 && now.callId == Some(call) && now.nextAttemptAt == was.nextAttemptAt
  }

  /** No worker has it any more, and all else is as it was. */
  predicate Released(was: Row, now: Row, status: TargetStatus) {
    && now.status == status && now.claimedAt == None
    && SameDials(was, now) && now.nextAttemptAt == was.nextAttemptAt
  }

  /** A dial that was not made leaves its target as it was before the claim, or ended for
      good with why it was refused; one that is no longer the worker's, alone. */
  predicate HandedBack(why: Why, was: Option<Row>, now: Option<Row>) {
    match why
    case Refused(suppressed) =>
      if was.Some? && was.value.status in AT_A_WORKER then
        now.Some? && Released(was.value, now.value, if suppressed then Suppressed else Failed)
      else now == was
    case _ =>
      if was.Some? && was.value.status == Dialling then now.Some? && Released(was.value, now.value, Pending)
      else now == was
  }

  /** Which of its target's dials a call recorded now is; none if it is recorded too late. */
  function DialNumber(s: Sys, t: TargetId): nat {
    if s.In(t, {Placing}) then s.rows[t].attempts + 1 else 0
  }

  predicate DialsAgain(c: Campaign, e: Ended) {
    e.reason in c.policy && e.attempts < c.policy[e.reason].maxAttempts
  }

  /** To be dialled again: it waits for the first instant its window is open once the
      rule's spacing has passed. */
  ghost predicate ToRetry(c: Campaign, e: Ended, was: Row, now: Row, at: Instant)
    requires DialsAgain(c, e)
  {
    && now.status == Pending && now.claimedAt == was.claimedAt && SameDials(was, now)
    && now.nextAttemptAt.Some?
    && OpensAt(c.zone(e.target), c.window, at + c.policy[e.reason].spacing, now.nextAttemptAt.value)
  }

  /** Its claim is older than the janitor's timeout. */
  predicate Stale(row: Row, now: Instant, timeout: Instant) {
    row.claimedAt.Some? && row.claimedAt.value < now - timeout
  }

  // ----- the diagram

  /** The step is a claim of this target, and may be made. */
  predicate ClaimsIt(s: Sys, a: Action, t: TargetId) {
    a.Worker? && a.move.Claim? && a.move.target == t && s.status == Running && s.Waiting(t, a.move.now)
  }

  predicate HandsItBack(s: Sys, a: Action, t: TargetId) {
    a.Worker? && a.move.HandBack? && s.At(a.w).NotDialled? && s.At(a.w).target == t
  }

  predicate ReclaimsIt(s: Sys, a: Action, t: TargetId, was: Row) {
    a.Other? && a.step.Reclaim? && a.step.target == t && Stale(was, a.step.now, a.step.timeout)
  }

  predicate SettlesItNext(s: Sys, a: Action, t: TargetId) {
    && a.Worker? && a.move.SettleOne? && s.At(a.w).Settling?
    && s.At(a.w).seen != [] && s.At(a.w).seen[0].target == t
  }

  predicate GivesItUp(s: Sys, a: Action, t: TargetId) {
    a.Worker? && a.move.GiveUpRecording? && a.move.wrote && s.At(a.w).Unrecorded? && s.At(a.w).target == t
  }

  /** Which step may take a target's row from `was` to `now`, and what it leaves. */
  ghost predicate InDiagram(c: Campaign, s: Sys, a: Action, t: TargetId, was: Row, now: Row) {
    match (was.status, now.status)
    case (Pending, Pending) => ClaimsIt(s, a, t) && PutOff(c, t, was, now, a.move.now)
    case (Pending, Dialling) =>
      ClaimsIt(s, a, t) && MayCallAt(c.zone(t), c.window, a.move.now) && TakenUp(was, now, a.move.now)
    case (Dialling, Placing) =>
      && a.Worker? && a.move.BeginPlacing? && s.At(a.w).Claimed? && s.At(a.w).target == t
      && s.status == Running && BeingPlaced(was, now, a.move.now)
    case (Placing, Calling) =>
      && a.Worker? && a.move.RecordDial? && a.move.wrote && s.At(a.w).Placed? && s.At(a.w).target == t
      && OnTheCall(was, now, s.At(a.w).call)
    case (Dialling, Pending) =>
      && Released(was, now, Pending)
      && ((HandsItBack(s, a, t) && !s.At(a.w).why.Refused?) || ReclaimsIt(s, a, t, was))
    case (Calling, Pending) =>
      && SettlesItNext(s, a, t) && DialsAgain(c, s.At(a.w).seen[0])
      && ToRetry(c, s.At(a.w).seen[0], was, now, a.move.now)
    case (from, Completed) =>
      && from in AT_A_WORKER && Released(was, now, Completed)
      && SettlesItNext(s, a, t) && !DialsAgain(c, s.At(a.w).seen[0])
    case (from, Suppressed) =>
      && from in AT_A_WORKER && Released(was, now, Suppressed)
      && HandsItBack(s, a, t) && s.At(a.w).why == Refused(true)
    case (from, Failed) =>
      && from in AT_A_WORKER && Released(was, now, Failed)
      && (|| (HandsItBack(s, a, t) && s.At(a.w).why == Refused(false))
          || GivesItUp(s, a, t)
          || (from == Placing && ReclaimsIt(s, a, t, was)))
    case (from, Cancelled) =>
      && from in {Pending, Dialling} && Released(was, now, Cancelled)
      && a == Other(Cancel) && s.status in {Queued, Running, Paused}
    case _ => false
  }

  /** The target's row is as it was, or changed as the diagram says; none is added or
      lost. */
  ghost predicate KeepsToDiagram(c: Campaign, s: Sys, a: Action, t: TargetId) {
    var was, now := RowOf(s, t), RowOf(Do(c, s, a), t);
    now == was || (was.Some? && now.Some? && InDiagram(c, s, a, t, was.value, now.value))
  }

  lemma ClaimKeeps(c: Campaign, s: Sys, w: WorkerId, to: TargetId, at: Instant, t: TargetId)
    ensures KeepsToDiagram(c, s, Worker(w, Claim(to, at)), t)
  {
    NextOpenOpens(c.zone(to), c.window, at);
  }

  lemma BeginKeeps(c: Campaign, s: Sys, w: WorkerId, at: Instant, t: TargetId)
    ensures KeepsToDiagram(c, s, Worker(w, BeginPlacing(at)), t)
  {
  }

  lemma RecordKeeps(c: Campaign, s: Sys, w: WorkerId, wrote: bool, heard: bool, t: TargetId)
    ensures KeepsToDiagram(c, s, Worker(w, RecordDial(wrote, heard)), t)
    ensures KeepsToDiagram(c, s, Worker(w, GiveUpRecording(wrote)), t)
  {
  }

  lemma HandBackKeeps(c: Campaign, s: Sys, w: WorkerId, t: TargetId)
    ensures KeepsToDiagram(c, s, Worker(w, HandBack), t)
  {
  }

  /** What the settling of one ending leaves of its target: to be dialled again, completed,
      or as it was if it is no longer there to settle. */
  ghost predicate SettledAs(c: Campaign, was: Option<Row>, now: Option<Row>, e: Ended, at: Instant) {
    if was.Some? && was.value.status == Calling && DialsAgain(c, e) then
      now.Some? && ToRetry(c, e, was.value, now.value, at)
    else if was.Some? && was.value.status in AT_A_WORKER && !DialsAgain(c, e) then
      now.Some? && Released(was.value, now.value, Completed)
    else now == was
  }

  lemma SettlesIt(c: Campaign, s: Sys, e: Ended, at: Instant)
    ensures SettledAs(c, RowOf(s, e.target), RowOf(DoSettle(c, s, e, at), e.target), e, at)
  {
    RetryOpens(c.policy, e.reason, e.attempts, at, c.zone(e.target), c.window);
  }

  lemma SettlesNoOther(c: Campaign, s: Sys, e: Ended, at: Instant, t: TargetId)
    requires t != e.target
    ensures RowOf(DoSettle(c, s, e, at), t) == RowOf(s, t)
  {
  }

  lemma SettledInDiagram(c: Campaign, s: Sys, w: WorkerId, at: Instant, t: TargetId, was: Row, now: Row)
    requires SettlesItNext(s, Worker(w, SettleOne(at)), t) && now != was
    requires SettledAs(c, Some(was), Some(now), s.At(w).seen[0], at)
    ensures InDiagram(c, s, Worker(w, SettleOne(at)), t, was, now)
  {
  }

  lemma SettleKeeps(c: Campaign, s: Sys, w: WorkerId, at: Instant, t: TargetId)
    ensures KeepsToDiagram(c, s, Worker(w, SettleOne(at)), t)
  {
    if s.At(w).Settling? && s.At(w).seen != [] {
      var e := s.At(w).seen[0];
      var now := DoSettle(c, s, e, at);
      assert RowOf(Do(c, s, Worker(w, SettleOne(at))), t) == RowOf(now, t);
      if t != e.target {
        SettlesNoOther(c, s, e, at, t);
      } else {
        SettlesIt(c, s, e, at);
        if t in s.rows && RowOf(now, t) != RowOf(s, t) {
          SettledInDiagram(c, s, w, at, t, s.rows[t], now.rows[t]);
        }
      }
    }
  }

  lemma QuietKeeps(c: Campaign, s: Sys, w: WorkerId, move: WorkerMove, t: TargetId)
    requires !OfATarget(move) && !move.SettleOne?
    ensures KeepsToDiagram(c, s, Worker(w, move), t)
  {
  }

  lemma OtherKeeps(c: Campaign, s: Sys, step: OtherMove, t: TargetId)
    ensures KeepsToDiagram(c, s, Other(step), t)
  {
  }

  /** Every step of every process, from any state, keeps to the diagram. */
  lemma EveryStepKeeps(c: Campaign, s: Sys, a: Action, t: TargetId)
    ensures KeepsToDiagram(c, s, a, t)
  {
    match a
    case Worker(w, Claim(to, at)) => ClaimKeeps(c, s, w, to, at, t);
    case Worker(w, BeginPlacing(at)) => BeginKeeps(c, s, w, at, t);
    case Worker(w, RecordDial(wrote, heard)) => RecordKeeps(c, s, w, wrote, heard, t);
    case Worker(w, GiveUpRecording(wrote)) => RecordKeeps(c, s, w, wrote, true, t);
    case Worker(w, HandBack) => HandBackKeeps(c, s, w, t);
    case Worker(w, SettleOne(at)) => SettleKeeps(c, s, w, at, t);
    case Worker(w, move) => QuietKeeps(c, s, w, move, t);
    case Other(step) => OtherKeeps(c, s, step, t);
  }

  // ----- what the others' steps do when they may

  /** The janitor: an abandoned claim is pending again, an abandoned placing has failed,
      and a claim within its timeout is left alone. */
  lemma ReclaimTells(c: Campaign, s: Sys, t: TargetId, now: Instant, timeout: Instant)
    requires t in s.rows
    ensures
      var was, after := s.rows[t], RowOf(Do(c, s, Other(Reclaim(t, now, timeout))), t);
      && after.Some?
      && (was.status == Dialling && Stale(was, now, timeout) ==> Released(was, after.value, Pending))
      && (was.status == Placing && Stale(was, now, timeout) ==> Released(was, after.value, Failed))
      && (was.status !in {Dialling, Placing} || !Stale(was, now, timeout) ==> after.value == was)
  {
  }

  /** Cancelling a campaign that is not over cancels every target not yet at the carrier,
      and only those. */
  lemma CancelTells(c: Campaign, s: Sys, t: TargetId)
    requires t in s.rows && s.status in {Queued, Running, Paused}
    ensures
      var was, after := s.rows[t], RowOf(Do(c, s, Other(Cancel)), t);
      && Do(c, s, Other(Cancel)).status == Stopped && after.Some?
      && if was.status in {Pending, Dialling} then Released(was, after.value, Cancelled) else after.value == was
  {
  }

  /** A call's ending is recorded as it ended, once, and gives back its slot; no other call
      changes. */
  lemma EndCallTells(c: Campaign, s: Sys, call: CallId, reason: string, x: CallId)
    requires x in s.calls
    ensures
      var now := Do(c, s, Other(EndCall(call, reason)));
      && x in now.calls && now.calls[x].target == s.calls[x].target && now.calls[x].attempt == s.calls[x].attempt
      && now.calls[x].ended ==
         (if x == call && s.calls[x].ended.None? then Some(reason) else s.calls[x].ended)
      && (x == call && s.calls[x].ended.None? ==> call !in now.slots && call !in now.ringing)
  {
  }

  /** A lease that lapses frees its slot, and a ringing call's renewal takes it again even
      when it had lapsed; neither touches another call's slot. */
  lemma LeaseTells(c: Campaign, s: Sys, call: CallId)
    requires call in s.slots && call in s.ringing
    ensures
      var lapsed := Do(c, s, Other(LoseLease(call)));
      var renewed := Do(c, lapsed, Other(RenewLease(call)));
      && lapsed.slots == s.slots - {call} && call in lapsed.lapsed && lapsed.ringing == s.ringing
      && renewed.slots == s.slots && call !in renewed.lapsed
  {
  }

  // ----- the campaign's own status

  /** Which step may take the campaign from one status to another; a resumed campaign that
      never started waits for its start again. */
  predicate StatusInDiagram(s: Sys, a: Action, now: CampaignStatus) {
    match (s.status, now)
    case (Queued, Running) => a == Other(StartCampaign)
    case (Queued, Paused) => a == Other(Pause)
    case (Running, Paused) => a == Other(Pause)
    case (Paused, Running) => a == Other(Resume) && s.started
    case (Paused, Queued) => a == Other(Resume) && !s.started
    case (Running, Done) => a == Other(FinishIfDone) && forall t :: t in s.rows ==> s.rows[t].status.IsFinal()
    case (from, Stopped) => a == Other(Cancel) && from != Done
    case _ => false
  }

  /** The step is one that this status allows. */
  predicate StatusMoves(s: Sys, a: Action) {
    || (a == Other(StartCampaign) && s.status == Queued)
    || (a == Other(Pause) && s.status in {Queued, Running})
    || (a == Other(Resume) && s.status == Paused)
    || (a == Other(Cancel) && s.status in {Queued, Running, Paused})
    || (a == Other(FinishIfDone) && s.status == Running && forall t :: t in s.rows ==> s.rows[t].status.IsFinal())
  }

  lemma OpenOrFinal(status: TargetStatus)
    ensures status !in OPEN <==> status.IsFinal()
  {
    match status
    case _ =>
  }

  lemma TargetMovesLeaveStatus(c: Campaign, s: Sys, w: WorkerId, move: WorkerMove)
    requires OfATarget(move)
    ensures WorkerDo(c, s, w, move).status == s.status && WorkerDo(c, s, w, move).started == s.started
  {
  }

  lemma QuietMovesLeaveStatus(c: Campaign, s: Sys, w: WorkerId, move: WorkerMove)
    requires !OfATarget(move)
    ensures WorkerDo(c, s, w, move).status == s.status && WorkerDo(c, s, w, move).started == s.started
  {
  }

  lemma WorkersLeaveStatus(c: Campaign, s: Sys, w: WorkerId, move: WorkerMove)
    ensures WorkerDo(c, s, w, move).status == s.status && WorkerDo(c, s, w, move).started == s.started
  {
    if OfATarget(move) {
      TargetMovesLeaveStatus(c, s, w, move);
    } else {
      QuietMovesLeaveStatus(c, s, w, move);
    }
  }

  /** The status is as it was, or changed as the diagram says. */
  predicate KeepsStatus(s: Sys, a: Action, now: Sys) {
    && (if StatusMoves(s, a) then now.status != s.status && StatusInDiagram(s, a, now.status)
        else now.status == s.status)
    && now.started == (s.started || (a == Other(StartCampaign) && s.status == Queued))
  }

  lemma ControlsKeepStatus(s: Sys, step: OtherMove)
    requires step in {StartCampaign, Pause, Resume, Cancel}
    ensures KeepsStatus(s, Other(step), OtherDo(s, step))
  {
  }

  lemma FinishKeepsStatus(s: Sys)
    ensures KeepsStatus(s, Other(FinishIfDone), OtherDo(s, FinishIfDone))
  {
    forall t | t in s.rows ensures s.rows[t].status !in OPEN <==> s.rows[t].status.IsFinal() {
      OpenOrFinal(s.rows[t].status);
    }
  }

  lemma CallsKeepStatus(s: Sys, step: OtherMove)
    requires step.Reclaim? || step.EndCall? || step.LoseLease? || step.RenewLease?
    ensures KeepsStatus(s, Other(step), OtherDo(s, step))
  {
  }

  /** The campaign's status changes exactly by the steps that may change it, as the diagram
      says, and it counts as started from its first start on. */
  lemma EveryStepKeepsStatus(c: Campaign, s: Sys, a: Action)
    ensures KeepsStatus(s, a, Do(c, s, a))
  {
    match a
    case Worker(w, move) => WorkersLeaveStatus(c, s, w, move);
    case Other(FinishIfDone) => FinishKeepsStatus(s);
    case Other(step) =>
      if step in {StartCampaign, Pause, Resume, Cancel} {
        ControlsKeepStatus(s, step);
      } else {
        CallsKeepStatus(s, step);
      }
  }
}
