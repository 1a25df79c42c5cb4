/**
 The project's live-call slots: every slot taken is a ringing call's or stands
 behind a reservation still to be given back, and a dial under way has its slot.
 */
module DialerSlots {
  import opened Options
  import opened Schedule
  import opened Dialer
  import opened DialerCalls

  /** A reservation on its way to the carrier. */
  predicate MidDial(pc: Pc) {
    pc.Reserved? || pc.Claimed? || pc.Asking?
  }

  /** A slot is taken, or was until its lease lapsed. */
  predicate Taken(s: Sys, x: CallId) {
    x in s.slots || x in s.lapsed
  }

  ghost predicate SlotsOwned(s: Sys) {
    forall x :: x in s.slots ==> x in s.ringing || Unsettled(Last(s.log, x))
  }

  ghost predicate DialsHaveSlots(s: Sys) {
    forall w: WorkerId {:trigger s.At(w)} :: MidDial(s.At(w)) ==> Taken(s, s.At(w).call)
  }

  /** A call that rings has its slot; only calls that rang do, or are recorded. */
  ghost predicate RingingHaveSlots(s: Sys) {
    && (forall x :: x in s.ringing ==> Last(s.log, x) == Some(Rang(x)) && Taken(s, x))
    && (forall x :: x in s.calls ==> Last(s.log, x) == Some(Rang(x)))
  }

  ghost predicate Accounted(s: Sys) {
    SlotsOwned(s) && DialsHaveSlots(s) && RingingHaveSlots(s)
  }

  // ----- steps about one call id

  /** Nothing moves of any call id but `call`. */
  ghost predicate OthersSame(s: Sys, now: Sys, call: Option<CallId>) {
    && (forall x: CallId :: Some(x) != call ==> Last(now.log, x) == Last(s.log, x))
    && (forall x: CallId :: Some(x) != call ==> (x in now.slots <==> x in s.slots))
    && (forall x: CallId :: Some(x) != call ==> (x in now.ringing <==> x in s.ringing))
    && (forall x: CallId :: Some(x) != call ==> (x in now.lapsed <==> x in s.lapsed))
    && (forall x: CallId :: Some(x) != call ==> (x in now.calls <==> x in s.calls))
  }

  /** Only worker `w` moves, and only `call`'s slot and log. */
  ghost predicate OneSlot(s: Sys, now: Sys, w: WorkerId, call: CallId) {
    && (forall v: WorkerId :: v != w ==> now.At(v) == s.At(v))
    && (forall v: WorkerId :: v != w && MidDial(s.At(v)) ==> s.At(v).call != call)
    && OthersSame(s, now, Some(call))
  }

  ghost predicate AccountedHere(now: Sys, w: WorkerId, call: CallId) {
    && (MidDial(now.At(w)) ==> now.At(w).call == call && Taken(now, call))
    && (call in now.slots ==> call in now.ringing || Unsettled(Last(now.log, call)))
    && (call in now.ringing ==> Last(now.log, call) == Some(Rang(call)) && Taken(now, call))
    && (call in now.calls ==> Last(now.log, call) == Some(Rang(call)))
  }

  lemma OneSlotAccounted(s: Sys, now: Sys, w: WorkerId, call: CallId)
    requires Accounted(s) && OneSlot(s, now, w, call) && AccountedHere(now, w, call)
    ensures Accounted(now)
  {
    forall v: WorkerId | MidDial(now.At(v)) ensures Taken(now, now.At(v).call) {
      if v != w {
        assert now.At(v) == s.At(v) && s.At(v).call != call;
      }
    }
  }

  lemma NoteChangesOne(log: seq<Event>, e: Event, call: CallId)
    requires e.Retried? || e.call == call
    ensures forall x :: x != call ==> Last(log + [e], x) == Last(log, x)
    ensures !e.Retried? ==> Last(log + [e], call) == Some(e)
  {
    LastsAfter(log, e);
  }

  /** A worker carrying `call` shares it with nobody. */
  lemma CarriedAlone(c: Campaign, s: Sys, w: WorkerId)
    requires Lives(c, s) && Carries(s.At(w))
    ensures Stands(s.At(w), Last(s.log, s.At(w).call))
    ensures forall v: WorkerId :: v != w && MidDial(s.At(v)) ==> s.At(v).call != s.At(w).call
  {
  }

  lemma ReserveAccounted(c: Campaign, s: Sys, w: WorkerId, call: CallId)
    requires Lives(c, s) && Accounted(s) && s.At(w).Idle? && Took(call) !in s.log
    ensures Accounted(s.(slots := s.slots + {call}).Note(Took(call)).Go(w, Reserved(call)))
  {
    if Last(s.log, call).Some? {
      LivesBeginByTaking(c, s.log, call);
    }
    NoteChangesOne(s.log, Took(call), call);
    var now := s.(slots := s.slots + {call}).Note(Took(call)).Go(w, Reserved(call));
    forall v: WorkerId | v != w && MidDial(s.At(v)) ensures s.At(v).call != call {
      assert Stands(s.At(v), Last(s.log, s.At(v).call));
    }
    OneSlotAccounted(s, now, w, call);
  }

  /** Worker `w` goes on to `pc` with or without its call id. */
  lemma GoAccounted(c: Campaign, s: Sys, mid: Sys, w: WorkerId, pc: Pc)
    requires Lives(c, s) && Accounted(s) && Carries(s.At(w)) && mid.pcs == s.pcs
    requires OthersSame(s, mid, Some(s.At(w).call)) && AccountedHere(mid.Go(w, pc), w, s.At(w).call)
    ensures Accounted(mid.Go(w, pc))
  {
    CarriedAlone(c, s, w);
    OneSlotAccounted(s, mid.Go(w, pc), w, s.At(w).call);
  }

  lemma ClaimAccounted(c: Campaign, s: Sys, w: WorkerId, call: CallId, t: TargetId, at: Instant)
    requires Lives(c, s) && Accounted(s) && s.At(w) == Reserved(call) && t in s.rows
    ensures Accounted(DoClaim(c, s, w, call, t, at))
  {
    var row, opens := s.rows[t], NextOpen(c.zone(t), c.window, at);
    if opens <= at {
      var put := s.Put(t, row.(status := Dialling, claimedAt := Some(at)));
      NoteChangesOne(s.log, ClaimedAt(t, call, at), call);
      GoAccounted(c, s, put.Note(ClaimedAt(t, call, at)), w, Claimed(call, t));
    } else {
      GoAccounted(c, s, s.Put(t, row.(nextAttemptAt := Some(opens), claimedAt := None)), w, Returning(call));
    }
  }

  lemma BeginPlacingAccounted(c: Campaign, s: Sys, w: WorkerId, call: CallId, t: TargetId, at: Instant)
    requires Lives(c, s) && Accounted(s) && s.At(w) == Claimed(call, t)
    ensures Accounted(DoBeginPlacing(s, w, call, t, at))
  {
    if s.In(t, {Dialling}) && s.status == Running {
      var mid := s.(slots := s.slots + {call}, lapsed := s.lapsed - {call})
        .Put(t, s.rows[t].(status := Placing, claimedAt := Some(at))).Note(BeganPlacing(t, call));
      NoteChangesOne(s.log, BeganPlacing(t, call), call);
      GoAccounted(c, s, mid, w, Asking(call, t));
    } else {
      var mid := s.(slots := s.slots - {call}, lapsed := s.lapsed - {call});
      GoAccounted(c, s, mid, w, NotDialled(call, t, LostClaim));
    }
  }

  lemma AskAccounted(c: Campaign, s: Sys, w: WorkerId, call: CallId, t: TargetId, placed: bool)
    requires Lives(c, s) && Accounted(s) && s.At(w) == Asking(call, t)
    ensures Accounted(WorkerDo(c, s, w, AskCarrier(placed)))
  {
    NoteChangesOne(s.log, Asked(t, call), call);
    if placed {
      NoteChangesOne(s.log + [Asked(t, call)], Rang(call), call);
      var mid := s.(ringing := s.ringing + {call}).Note(Asked(t, call)).Note(Rang(call));
      GoAccounted(c, s, mid, w, Placed(call, t));
    } else {
      GoAccounted(c, s, s.(slots := s.slots - {call}).Note(Asked(t, call)), w, NotDialled(call, t, Refused(false)));
    }
  }

  lemma RecordAccounted(c: Campaign, s: Sys, w: WorkerId, call: CallId, t: TargetId, wrote: bool, pc: Pc)
    requires Lives(c, s) && Accounted(s) && s.At(w) == Placed(call, t) && (pc == Idle || pc == Unrecorded(call, t))
    ensures Accounted((if wrote then DoRecord(s, call, t) else s).Go(w, pc))
  {
    GoAccounted(c, s, if wrote then DoRecord(s, call, t) else s, w, pc);
  }

  lemma GiveBackAccounted(c: Campaign, s: Sys, w: WorkerId, call: CallId)
    requires Lives(c, s) && Accounted(s) && s.At(w) == Returning(call)
    ensures Accounted(s.(slots := s.slots - {call}).Note(Freed(call)).Go(w, Idle))
  {
    NoteChangesOne(s.log, Freed(call), call);
    GoAccounted(c, s, s.(slots := s.slots - {call}).Note(Freed(call)), w, Idle);
  }

  lemma RefusedAccounted(c: Campaign, s: Sys, w: WorkerId, call: CallId, t: TargetId, why: Why, freed: bool)
    requires Lives(c, s) && Accounted(s) && s.At(w) == Claimed(call, t)
    ensures Accounted(s.(slots := if freed then s.slots - {call} else s.slots).Go(w, NotDialled(call, t, why)))
  {
    GoAccounted(c, s, s.(slots := if freed then s.slots - {call} else s.slots), w, NotDialled(call, t, why));
  }

  lemma HandBackAccounted(c: Campaign, s: Sys, w: WorkerId, call: CallId, t: TargetId, why: Why)
    requires Lives(c, s) && Accounted(s) && s.At(w) == NotDialled(call, t, why)
    ensures Accounted(DoHandBack(s, t, why).Go(w, Returning(call)))
  {
    GoAccounted(c, s, DoHandBack(s, t, why), w, Returning(call));
  }

  lemma DieAccounted(c: Campaign, s: Sys, w: WorkerId)
    requires Lives(c, s) && Accounted(s)
    ensures Accounted(s.(orphans := s.orphans + Holding(s.At(w))).Go(w, Idle))
  {
    var mid := s.(orphans := s.orphans + Holding(s.At(w)));
    if Carries(s.At(w)) {
      GoAccounted(c, s, mid, w, Idle);
    } else {
      StillAccounted(s, mid.Go(w, Idle));
    }
  }

  /** A step that takes no slot, moves no call and starts no dial. */
  lemma StillAccounted(s: Sys, now: Sys)
    requires Accounted(s)
    requires forall v: WorkerId :: now.At(v) == s.At(v) || !MidDial(now.At(v))
    requires OthersSame(s, now, None)
    ensures Accounted(now)
  {
  }

  lemma SettleAccounted(c: Campaign, s: Sys, w: WorkerId, e: Ended, at: Instant, rest: seq<Ended>)
    requires Accounted(s) && s.At(w).Settling?
    ensures Accounted(DoSettle(c, s, e, at).Go(w, Settling(rest)))
  {
    var mid := DoSettle(c, s, e, at);
    if mid.log != s.log {
      LastsAfter(s.log, mid.log[|s.log|]);
    }
    assert mid.pcs == s.pcs;
    StillAccounted(s, mid);
    StillAccounted(mid, mid.Go(w, Settling(rest)));
  }

  lemma DialAccounted(c: Campaign, s: Sys, w: WorkerId, move: WorkerMove)
    requires Lives(c, s) && Accounted(s) && ToTheCarrier(move)
    ensures Accounted(WorkerDo(c, s, w, move))
  {
    match (s.At(w), move) {
      case (Reserved(call), Claim(t, at)) =>
        if t in s.rows {
          ClaimAccounted(c, s, w, call, t, at);
        }
      case (Claimed(call, t), BeginPlacing(at)) => BeginPlacingAccounted(c, s, w, call, t, at);
      case (Asking(call, t), AskCarrier(placed)) => AskAccounted(c, s, w, call, t, placed);
      case (Placed(call, t), RecordDial(wrote, heard)) =>
        RecordAccounted(c, s, w, call, t, wrote, if heard then Idle else Unrecorded(call, t));
      case (Unrecorded(call, t), GiveUpRecording(wrote)) =>
        GoAccounted(c, s, if wrote then DoFinish(s, t, Failed) else s, w, Idle);
      case _ =>
    }
  }

  lemma ReturnAccounted(c: Campaign, s: Sys, w: WorkerId, move: WorkerMove)
    requires Lives(c, s) && Accounted(s) && BackFromIt(move)
    ensures Accounted(WorkerDo(c, s, w, move))
  {
    match (s.At(w), move) {
      case (Reserved(call), ClaimNothing) => GoAccounted(c, s, s, w, Returning(call));
      case (Claimed(call, t), RefuseEarly(why, freed)) => RefusedAccounted(c, s, w, call, t, why, freed);
      case (NotDialled(call, t, why), HandBack) => HandBackAccounted(c, s, w, call, t, why);
      case (Returning(call), GiveBack) => GiveBackAccounted(c, s, w, call);
      case _ =>
    }
  }

  lemma RestAccounted(c: Campaign, s: Sys, w: WorkerId, move: WorkerMove)
    requires Lives(c, s) && Accounted(s) && !ToTheCarrier(move) && !BackFromIt(move)
    ensures Accounted(WorkerDo(c, s, w, move))
  {
    match (s.At(w), move) {
      case (Idle, Reserve(call)) =>
        if Took(call) !in s.log {
          ReserveAccounted(c, s, w, call);
        }
      case (pc, Die) => DieAccounted(c, s, w);
      case (Idle, ReadEnded(seen)) => WithoutCallAccounted(s, w, Settling(seen));
      case (Settling(seen), SettleOne(now)) =>
        if seen == [] {
          WithoutCallAccounted(s, w, Idle);
        } else {
          SettleAccounted(c, s, w, seen[0], now, seen[1..]);
        }
      case _ =>
    }
  }

  lemma WithoutCallAccounted(s: Sys, w: WorkerId, pc: Pc)
    requires Accounted(s) && !MidDial(pc)
    ensures Accounted(s.Go(w, pc))
  {
    StillAccounted(s, s.Go(w, pc));
  }

  lemma WorkerAccounted(c: Campaign, s: Sys, w: WorkerId, move: WorkerMove)
    requires Lives(c, s) && Accounted(s)
    ensures Accounted(WorkerDo(c, s, w, move))
  {
    if ToTheCarrier(move) {
      DialAccounted(c, s, w, move);
    } else if BackFromIt(move) {
      ReturnAccounted(c, s, w, move);
    } else {
      RestAccounted(c, s, w, move);
    }
  }

  // ----- the steps of a call and its lease

  lemma EndCallAccounted(c: Campaign, s: Sys, call: CallId, reason: string)
    requires Lives(c, s) && Accounted(s)
    ensures Accounted(OtherDo(s, EndCall(call, reason)))
  {
    var now := OtherDo(s, EndCall(call, reason));
    if now != s {
      assert Last(s.log, call) == Some(Rang(call));
      forall v: WorkerId | MidDial(now.At(v)) ensures Taken(now, now.At(v).call) {
        assert now.At(v) == s.At(v);
        assert Stands(s.At(v), Last(s.log, s.At(v).call));
      }
    }
  }

  lemma LeaseAccounted(s: Sys, call: CallId)
    requires Accounted(s)
    ensures Accounted(OtherDo(s, LoseLease(call))) && Accounted(OtherDo(s, RenewLease(call)))
  {
    SamePcsAccounted(s, OtherDo(s, LoseLease(call)));
    SamePcsAccounted(s, OtherDo(s, RenewLease(call)));
  }

  lemma SamePcsAccounted(s: Sys, now: Sys)
    requires Accounted(s) && now.pcs == s.pcs && now.log == s.log && now.calls == s.calls && now.ringing == s.ringing
    requires forall x :: Taken(s, x) ==> Taken(now, x)
    requires forall x :: x in now.slots ==> x in s.slots || x in s.ringing
    ensures Accounted(now)
  {
    forall v: WorkerId ensures now.At(v) == s.At(v) {
    }
  }

  predicate OfACall(step: OtherMove) {
    step.EndCall? || step.LoseLease? || step.RenewLease?
  }

  lemma ControlsAccounted(s: Sys, step: OtherMove)
    requires Accounted(s) && !OfACall(step)
    ensures Accounted(OtherDo(s, step))
  {
    SamePcsAccounted(s, OtherDo(s, step));
  }

  lemma OtherAccounted(c: Campaign, s: Sys, step: OtherMove)
    requires Lives(c, s) && Accounted(s)
    ensures Accounted(OtherDo(s, step))
  {
    match step {
      case EndCall(call, reason) => EndCallAccounted(c, s, call, reason);
      case LoseLease(call) => LeaseAccounted(s, call);
      case RenewLease(call) => LeaseAccounted(s, call);
      case _ => ControlsAccounted(s, step);
    }
  }

  lemma {:induction false} EveryRunAccounts(c: Campaign, init: Sys, steps: seq<Action>)
    requires Fresh(init)
    ensures Lives(c, After(c, init, steps)) && Accounted(After(c, init, steps))
    decreases |steps|
  {
    EveryRunLives(c, init, steps);
    if steps != [] {
      EveryRunAccounts(c, init, steps[..|steps| - 1]);
      var s, a := After(c, init, steps[..|steps| - 1]), steps[|steps| - 1];
      match a {
        case Worker(w, move) => WorkerAccounted(c, s, w, move);
        case Other(step) => OtherAccounted(c, s, step);
      }
    }
  }

  /** In every run a slot taken is a ringing call's, or stands behind a reservation
      that a worker holds or died with; and every ringing call and every dial still
      on its way to the carrier has its slot, unless the lease on it lapsed. */
  lemma EverySlotHasAnOwner(c: Campaign, init: Sys, steps: seq<Action>, x: CallId)
    requires Fresh(init)
    ensures
      var s := After(c, init, steps);
      && (x in s.slots ==> x in s.ringing || x in s.orphans || Held(s, x))
      && (x in s.ringing || (exists w: WorkerId :: MidDial(s.At(w)) && s.At(w).call == x) ==>
            x in s.slots || x in s.lapsed)
      && !(x in s.ringing && (x in s.orphans || Held(s, x)))
  {
    var s := After(c, init, steps);
    EveryRunAccounts(c, init, steps);
    HeldIsUnsettled(c, s, x);
    if w: WorkerId :| MidDial(s.At(w)) && s.At(w).call == x {
      assert Taken(s, s.At(w).call);
    }
  }
}
