/**
 Campaign dialling as the steps its processes commit: any number of workers, the
 janitor, the calls themselves and the campaign's controls, sharing the target
 rows and the project's live-call slots. A step is one committed transaction, or
 one request to the carrier or to the limits' store; between a worker's steps
 anything may happen, a worker's death included.
 */
module Dialer {
  import opened Options
  import opened Schedule

  type TargetId = nat
  type CallId = nat
  type WorkerId = nat

  datatype CampaignStatus = Queued | Running | Paused | Done | Stopped

  datatype TargetStatus =
    | Pending | Dialling | Placing | Calling
    | Completed | Suppressed | Failed | Cancelled
  {
    predicate IsFinal() {
      this in {Completed, Suppressed, Failed, Cancelled}
    }
  }

  datatype Row = Row(
    status: TargetStatus,
    attempts: nat,
    nextAttemptAt: Option<Instant>,
    claimedAt: Option<Instant>,
    callId: Option<CallId>)

  /** A recorded call: its target, which of the target's dials it was, and how it
      ended once it has. */
  datatype CallRow = CallRow(target: TargetId, attempt: nat, ended: Option<string>)

  /** What never changes during a run. */
  datatype Campaign = Campaign(
    policy: map<string, Rule>,
    window: Option<CallingWindow>,
    zone: TargetId -> Zone)

  /** An ended call as a settling worker read it, before it writes. */
  datatype Ended = Ended(target: TargetId, call: CallId, reason: string, attempts: nat)

  /** Why nothing was dialled: the claim was lost, the limits said not yet, or the
      dial was refused (for good, suppressed or not). */
  datatype Why = LostClaim | NotYet | Refused(suppressed: bool)

  /** Where a worker is in its pass. */
  datatype Pc =
    | Idle
    | Reserved(call: CallId)
    | Claimed(call: CallId, target: TargetId)
    | Asking(call: CallId, target: TargetId)
    | Placed(call: CallId, target: TargetId)
    | Unrecorded(call: CallId, target: TargetId)
    | NotDialled(call: CallId, target: TargetId, why: Why)
    | Returning(call: CallId)
    | Settling(seen: seq<Ended>)

  /** What happened, for the properties to talk about. */
  datatype Event =
    | Took(call: CallId)
    | Freed(call: CallId)
    | ClaimedAt(target: TargetId, call: CallId, now: Instant)
    | BeganPlacing(target: TargetId, call: CallId)
    | Asked(target: TargetId, call: CallId)
    | Rang(call: CallId)
    | Retried(target: TargetId, call: CallId, reason: string, seen: Instant, at: Instant, stale: bool)

  datatype Sys = Sys(
    status: CampaignStatus,
    started: bool,
    rows: map<TargetId, Row>,
    calls: map<CallId, CallRow>,
    pcs: map<WorkerId, Pc>,
    slots: set<CallId>,
    ringing: set<CallId>,
    lapsed: set<CallId>,
    orphans: set<CallId>,
    log: seq<Event>)
  {
    function At(w: WorkerId): Pc {
      if w in pcs then pcs[w] else Idle
    }

    /** A target waits and is due. */
    predicate Waiting(t: TargetId, now: Instant) {
      t in rows && rows[t].status == Pending && Due(rows[t], now)
    }

    predicate In(t: TargetId, from: set<TargetStatus>) {
      t in rows && rows[t].status in from
    }

    function Go(w: WorkerId, pc: Pc): Sys {
      this.(pcs := pcs[w := pc])
    }

    function Put(t: TargetId, row: Row): Sys {
      this.(rows := rows[t := row])
    }

    function Note(e: Event): Sys {
      this.(log := log + [e])
    }
  }

  /** A step of a worker's pass. */
  datatype WorkerMove =
    | Reserve(call: CallId)
    | ClaimNothing
    | Claim(target: TargetId, now: Instant)
    | RefuseEarly(why: Why, freed: bool)
    | BeginPlacing(now: Instant)
    | AskCarrier(placed: bool)
    | RecordDial(wrote: bool, heard: bool)
    | GiveUpRecording(wrote: bool)
    | HandBack
    | GiveBack
    | Die
    | ReadEnded(seen: seq<Ended>)
    | SettleOne(now: Instant)

  /** A step of anything else: the janitor, a call, a lease, the campaign's controls. */
  datatype OtherMove =
    | Reclaim(target: TargetId, now: Instant, timeout: Instant)
    | EndCall(call: CallId, reason: string)
    | LoseLease(call: CallId)
    | RenewLease(call: CallId)
    | StartCampaign
    | Pause
    | Resume
    | Cancel
    | FinishIfDone

  datatype Action = Worker(w: WorkerId, move: WorkerMove) | Other(step: OtherMove)

  // ----- the guarded updates of the target rows

  const OPEN: set<TargetStatus> := {Pending, Dialling, Placing, Calling}
  const AT_A_WORKER: set<TargetStatus> := {Dialling, Placing, Calling}

  function Due(row: Row, now: Instant): bool {
    row.nextAttemptAt.None? || row.nextAttemptAt.value <= now
  }

  /** `claim_next_target` with the window's check in the same transaction: a due
      target is claimed, or deferred until its window opens. */
  function DoClaim(c: Campaign, s: Sys, w: WorkerId, call: CallId, t: TargetId, now: Instant): Sys
    requires t in s.rows
  {
    var row, opens := s.rows[t], NextOpen(c.zone(t), c.window, now);
    if opens <= now then
      s.Put(t, row.(status := Dialling, claimedAt := Some(now))).Note(ClaimedAt(t, call, now)).Go(w, Claimed(call, t))
    else
      s.Put(t, row.(nextAttemptAt := Some(opens), claimedAt := None)).Go(w, Returning(call))
  }

  /** `begin_placing`, after the dial's own admission took the slot again. */
  function DoBeginPlacing(s: Sys, w: WorkerId, call: CallId, t: TargetId, now: Instant): Sys {
    if s.In(t, {Dialling}) && s.status == Running then
      s.(slots := s.slots + {call}, lapsed := s.lapsed - {call})
        .Put(t, s.rows[t].(status := Placing, claimedAt := Some(now)))
        .Note(BeganPlacing(t, call)).Go(w, Asking(call, t))
    else
      s.(slots := s.slots - {call}, lapsed := s.lapsed - {call}).Go(w, NotDialled(call, t, LostClaim))
  }

  /** `record_dial`; the call row is committed with it, whether it moved or not. */
  function DoRecord(s: Sys, call: CallId, t: TargetId): Sys {
    if s.In(t, {Placing}) then
      var row := s.rows[t];
      s.(calls := s.calls[call := CallRow(t, row.attempts + 1, None)])
        .Put(t, row.(status := Calling, attempts := row.attempts + 1, callId := Some(call), claimedAt := None))
    else s.(calls := s.calls[call := CallRow(t, 0, None)])
  }

  /** `finish_target`. */
  function DoFinish(s: Sys, t: TargetId, status: TargetStatus): Sys {
    if s.In(t, AT_A_WORKER) then s.Put(t, s.rows[t].(status := status, claimedAt := None)) else s
  }

  /** `unclaim`. */
  function DoUnclaim(s: Sys, t: TargetId): Sys {
    if s.In(t, {Dialling}) then s.Put(t, s.rows[t].(status := Pending, claimedAt := None)) else s
  }

  /** `_not_dialled`: the target is handed back, or ended with why. */
  function DoHandBack(s: Sys, t: TargetId, why: Why): Sys {
    match why
    case LostClaim => DoUnclaim(s, t)
    case NotYet => DoUnclaim(s, t)
    case Refused(suppressed) => DoFinish(s, t, if suppressed then Suppressed else Failed)
  }

  /** One target of `_settle`'s writes: dialled again when the policy says so, else
      completed. The update checks that the target is `calling`, not which call. */
  function DoSettle(c: Campaign, s: Sys, e: Ended, now: Instant): Sys {
    var at := RetryAt(c.policy, e.reason, e.attempts, now, c.zone(e.target), c.window);
    if at.None? then DoFinish(s, e.target, Completed)
    else if s.In(e.target, {Calling}) then
      var row := s.rows[e.target];
      s.Put(e.target, row.(status := Pending, nextAttemptAt := at))
        .Note(Retried(e.target, e.call, e.reason, now, at.value, row.callId != Some(e.call)))
    else s
  }

  /** `reclaim_abandoned` on one stale claim. */
  function DoReclaim(s: Sys, t: TargetId, now: Instant, timeout: Instant): Sys {
    if t !in s.rows || s.rows[t].claimedAt.None? || s.rows[t].claimedAt.value >= now - timeout then s
    else if s.rows[t].status == Dialling then s.Put(t, s.rows[t].(status := Pending, claimedAt := None))
    else if s.rows[t].status == Placing then s.Put(t, s.rows[t].(status := Failed, claimedAt := None))
    else s
  }

  /** A call ends once; one not recorded (yet) leaves no trace. */
  function EndedIn(calls: map<CallId, CallRow>, call: CallId, reason: string): map<CallId, CallRow> {
    if call in calls && calls[call].ended.None? then calls[call := calls[call].(ended := Some(reason))] else calls
  }

  /** `cancel_campaign`: every target not yet at the carrier is cancelled with it. */
  function DoCancel(s: Sys): Sys {
    if s.status !in {Queued, Running, Paused} then s
    else s.(status := Stopped, rows := map t | t in s.rows ::
      if s.rows[t].status in {Pending, Dialling} then s.rows[t].(status := Cancelled, claimedAt := None) else s.rows[t])
  }

  /** The ended calls a settling worker reads are calls of `calling` targets. */
  predicate ReadsWhatIsThere(s: Sys, e: Ended) {
    && s.In(e.target, {Calling})
    && s.rows[e.target].callId == Some(e.call)
    && s.rows[e.target].attempts == e.attempts
    && e.call in s.calls && s.calls[e.call].ended == Some(e.reason)
  }

  /** Each target is read once. */
  predicate EachOnce(seen: seq<Ended>) {
    forall i, j :: 0 <= i < j < |seen| ==> seen[i].target != seen[j].target
  }

  // ----- one step

  /** What a worker's step does from where the worker is; a step that is not its
      next leaves everything as it is. */
  function WorkerDo(c: Campaign, s: Sys, w: WorkerId, move: WorkerMove): Sys {
    match (s.At(w), move)
    case (Idle, Reserve(call)) =>
      if Took(call) in s.log then s
      else s.(slots := s.slots + {call}).Note(Took(call)).Go(w, Reserved(call))
    case (Reserved(call), ClaimNothing) => s.Go(w, Returning(call))
    case (Reserved(call), Claim(t, now)) =>
      if s.status == Running && s.In(t, {Pending}) && Due(s.rows[t], now) then DoClaim(c, s, w, call, t, now) else s
    case (Claimed(call, t), RefuseEarly(why, freed)) =>
      if why == LostClaim then s
      else s.(slots := if freed then s.slots - {call} else s.slots).Go(w, NotDialled(call, t, why))
    case (Claimed(call, t), BeginPlacing(now)) => DoBeginPlacing(s, w, call, t, now)
    case (Asking(call, t), AskCarrier(placed)) =>
      if placed then s.(ringing := s.ringing + {call}).Note(Asked(t, call)).Note(Rang(call)).Go(w, Placed(call, t))
      else s.(slots := s.slots - {call}).Note(Asked(t, call)).Go(w, NotDialled(call, t, Refused(false)))
    case (Placed(call, t), RecordDial(wrote, heard)) =>
      if heard && !wrote then s
      else (if wrote then DoRecord(s, call, t) else s).Go(w, if heard then Idle else Unrecorded(call, t))
    case (Unrecorded(call, t), GiveUpRecording(wrote)) =>
      (if wrote then DoFinish(s, t, Failed) else s).Go(w, Idle)
    case (NotDialled(call, t, why), HandBack) => DoHandBack(s, t, why).Go(w, Returning(call))
    case (Returning(call), GiveBack) => s.(slots := s.slots - {call}).Note(Freed(call)).Go(w, Idle)
    case (pc, Die) => s.(orphans := s.orphans + Holding(pc)).Go(w, Idle)
    case (Idle, ReadEnded(seen)) =>
      if EachOnce(seen) && forall e :: e in seen ==> ReadsWhatIsThere(s, e) then s.Go(w, Settling(seen)) else s
    case (Settling(seen), SettleOne(now)) =>
      if seen == [] then s.Go(w, Idle) else DoSettle(c, s, seen[0], now).Go(w, Settling(seen[1..]))
    case _ => s
  }

  function OtherDo(s: Sys, step: OtherMove): Sys {
    match step
    case Reclaim(t, now, timeout) => DoReclaim(s, t, now, timeout)
    case EndCall(call, reason) =>
      if call in s.ringing || (call in s.calls && s.calls[call].ended.None?) then
        s.(ringing := s.ringing - {call}, slots := s.slots - {call}, calls := EndedIn(s.calls, call, reason)) else s
    case LoseLease(call) =>
      if call in s.slots then s.(slots := s.slots - {call}, lapsed := s.lapsed + {call}) else s
    case RenewLease(call) =>
      if call in s.ringing then s.(slots := s.slots + {call}, lapsed := s.lapsed - {call}) else s
    case StartCampaign => if s.status == Queued then s.(status := Running, started := true) else s
    case Pause => if s.status in {Queued, Running} then s.(status := Paused) else s
    case Resume => if s.status == Paused then s.(status := if s.started then Running else Queued) else s
    case Cancel => DoCancel(s)
    case FinishIfDone =>
      if s.status == Running && forall t :: t in s.rows ==> s.rows[t].status !in OPEN
      then s.(status := Done) else s
  }

  function Do(c: Campaign, s: Sys, a: Action): Sys {
    match a
    case Worker(w, move) => WorkerDo(c, s, w, move)
    case Other(step) => OtherDo(s, step)
  }

  /** The reservation a worker still has to give back or to turn into a call. */
  function Holding(pc: Pc): set<CallId> {
    if pc.Reserved? || pc.Claimed? || pc.Asking? || pc.NotDialled? || pc.Returning? then {pc.call} else {}
  }

  /** Every target pending and never dialled, every worker idle, nothing held. */
  predicate Fresh(s: Sys) {
    && s.status == Queued && !s.started
    && (forall t :: t in s.rows ==> s.rows[t] == Row(Pending, 0, None, None, None))
    && s.calls == map[] && s.pcs == map[]
    && s.slots == {} && s.ringing == {} && s.lapsed == {} && s.orphans == {} && s.log == []
  }

  function After(c: Campaign, s: Sys, steps: seq<Action>): Sys
    decreases |steps|
  {
    if steps == [] then s else Do(c, After(c, s, steps[..|steps| - 1]), steps[|steps| - 1])
  }

  lemma AfterAll(c: Campaign, s: Sys, a: seq<Action>, b: seq<Action>)
    ensures After(c, s, a + b) == After(c, After(c, s, a), b)
    decreases |b|
  {
    if b == [] {
      assert a + b == a;
    } else {
      assert (a + b)[..|a + b| - 1] == a + b[..|b| - 1];
      AfterAll(c, s, a, b[..|b| - 1]);
    }
  }

  lemma AfterOne(c: Campaign, s: Sys, a: Action)
    ensures After(c, s, [a]) == Do(c, s, a)
  {
    assert [a][..0] == [];
    assert After(c, s, []) == s;
  }

  /** One step more. */
  lemma AfterThen(c: Campaign, s: Sys, steps: seq<Action>, a: Action)
    ensures After(c, s, steps + [a]) == Do(c, After(c, s, steps), a)
  {
    AfterAll(c, s, steps, [a]);
    AfterOne(c, After(c, s, steps), a);
  }

  lemma AfterTwo(c: Campaign, s: Sys, a: Action, b: Action)
    ensures After(c, s, [a, b]) == Do(c, Do(c, s, a), b)
  {
    AfterAll(c, s, [a], [b]);
    AfterOne(c, s, a);
    AfterOne(c, Do(c, s, a), b);
    assert [a] + [b] == [a, b];
  }

  lemma AfterThree(c: Campaign, s: Sys, a: Action, b: Action, e: Action)
    ensures After(c, s, [a, b, e]) == Do(c, Do(c, Do(c, s, a), b), e)
  {
    AfterAll(c, s, [a, b], [e]);
    AfterTwo(c, s, a, b);
    AfterOne(c, Do(c, Do(c, s, a), b), e);
    assert [a, b] + [e] == [a, b, e];
  }

  // ----- what every run keeps whatever the order

  /** The moves that may change a target's row. */
  predicate OfATarget(move: WorkerMove) {
    move.Claim? || move.BeginPlacing? || move.RecordDial? || move.GiveUpRecording? || move.HandBack?
  }

  lemma TargetMoves(c: Campaign, s: Sys, w: WorkerId, move: WorkerMove)
    requires OfATarget(move)
    ensures
      var now := WorkerDo(c, s, w, move);
      s.log <= now.log && forall v: WorkerId :: v != w ==> now.At(v) == s.At(v)
  {
  }

  lemma SettleMoves(c: Campaign, s: Sys, w: WorkerId, at: Instant)
    ensures
      var now := WorkerDo(c, s, w, SettleOne(at));
      s.log <= now.log && forall v: WorkerId :: v != w ==> now.At(v) == s.At(v)
  {
  }

  predicate OfACallId(move: WorkerMove) {
    move.Reserve? || move.AskCarrier? || move.GiveBack?
  }

  lemma CallIdMoves(c: Campaign, s: Sys, w: WorkerId, move: WorkerMove)
    requires OfACallId(move)
    ensures
      var now := WorkerDo(c, s, w, move);
      s.log <= now.log && forall v: WorkerId :: v != w ==> now.At(v) == s.At(v)
  {
  }

  lemma OtherMoves(c: Campaign, s: Sys, w: WorkerId, move: WorkerMove)
    requires !OfATarget(move) && !OfACallId(move) && !move.SettleOne?
    ensures
      var now := WorkerDo(c, s, w, move);
      s.log <= now.log && forall v: WorkerId :: v != w ==> now.At(v) == s.At(v)
  {
  }

  lemma WorkerMoves(c: Campaign, s: Sys, w: WorkerId, move: WorkerMove)
    ensures
      var now := WorkerDo(c, s, w, move);
      s.log <= now.log && forall v: WorkerId :: v != w ==> now.At(v) == s.At(v)
  {
    if OfATarget(move) {
      TargetMoves(c, s, w, move);
    } else if move.SettleOne? {
      SettleMoves(c, s, w, move.now);
    } else if OfACallId(move) {
      CallIdMoves(c, s, w, move);
    } else {
      OtherMoves(c, s, w, move);
    }
  }

  lemma DoGrowsTheLog(c: Campaign, s: Sys, a: Action)
    ensures s.log <= Do(c, s, a).log
  {
    match a {
      case Worker(w, move) => WorkerMoves(c, s, w, move);
      case Other(step) =>
    }
  }

  /** Nothing that happened is forgotten. */
  lemma {:induction false} TheLogGrows(c: Campaign, s: Sys, steps: seq<Action>)
    ensures s.log <= After(c, s, steps).log
    decreases |steps|
  {
    if steps != [] {
      TheLogGrows(c, s, steps[..|steps| - 1]);
      DoGrowsTheLog(c, After(c, s, steps[..|steps| - 1]), steps[|steps| - 1]);
    }
  }

  predicate NotOf(w: WorkerId, a: Action) {
    a.Worker? ==> a.w != w
  }

  lemma OthersLeaveIt(c: Campaign, s: Sys, a: Action, w: WorkerId)
    requires NotOf(w, a)
    ensures Do(c, s, a).At(w) == s.At(w)
  {
    match a {
      case Worker(v, move) => WorkerMoves(c, s, v, move);
      case Other(step) =>
    }
  }

  /** A worker stays where it is whatever the others do. */
  lemma {:induction false} WhileOthersMove(c: Campaign, s: Sys, steps: seq<Action>, w: WorkerId)
    requires forall a :: a in steps ==> NotOf(w, a)
    ensures After(c, s, steps).At(w) == s.At(w)
    decreases |steps|
  {
    if steps != [] {
      WhileOthersMove(c, s, steps[..|steps| - 1], w);
      OthersLeaveIt(c, After(c, s, steps[..|steps| - 1]), steps[|steps| - 1], w);
    }
  }
}
