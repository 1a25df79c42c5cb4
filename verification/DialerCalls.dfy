/**
 The life of a call id: taken, claimed for one target, moved to placing, asked of
 the carrier once, and then given back once or turned into a call, never both.
 */
module DialerCalls {
  import opened Options
  import opened Schedule
  import opened Dialer

  // ----- what the log says of a call id

  /** The last thing that happened under a call id; a retry is about a target. */
  function Last(log: seq<Event>, call: CallId): Option<Event>
    decreases |log|
  {
    if log == [] then None
    else
      var last := log[|log| - 1];
      if !last.Retried? && last.call == call then Some(last) else Last(log[..|log| - 1], call)
  }

  lemma LastAfter(log: seq<Event>, e: Event, call: CallId)
    ensures Last(log + [e], call) == if !e.Retried? && e.call == call then Some(e) else Last(log, call)
  {
    assert (log + [e])[..|log|] == log;
  }

  lemma LastsAfter(log: seq<Event>, e: Event)
    ensures forall x {:trigger Last(log + [e], x)} ::
      Last(log + [e], x) == if !e.Retried? && e.call == x then Some(e) else Last(log, x)
  {
    forall x {
      LastAfter(log, e, x);
    }
  }

  /** What may come next in a call id's life. */
  ghost predicate Follows(c: Campaign, last: Option<Event>, e: Event) {
    match e
    case Took(_) => last.None?
    case ClaimedAt(t, call, now) => last == Some(Took(call)) && MayCallAt(c.zone(t), c.window, now)
    case BeganPlacing(t, call) => last.Some? && last.value.ClaimedAt? && last.value.target == t
    case Asked(t, call) => last == Some(BeganPlacing(t, call))
    case Rang(call) => last.Some? && last.value.Asked?
    case Freed(call) => Unsettled(last)
    case Retried(_, _, _, _, _, _) => true
  }

  /** Taken, and neither given back nor ringing. */
  predicate Unsettled(last: Option<Event>) {
    last.Some? && !last.value.Freed? && !last.value.Rang?
  }

  ghost predicate Ordered(c: Campaign, log: seq<Event>) {
    forall i :: 0 <= i < |log| ==> log[i].Retried? || Follows(c, Last(log[..i], log[i].call), log[i])
  }

  lemma OneMoreOrdered(c: Campaign, log: seq<Event>, e: Event)
    requires Ordered(c, log) && (e.Retried? || Follows(c, Last(log, e.call), e))
    ensures Ordered(c, log + [e])
  {
    var now := log + [e];
    forall i | 0 <= i < |now| ensures now[i].Retried? || Follows(c, Last(now[..i], now[i].call), now[i]) {
      assert now[..i] == log[..i];
      assert log[..|log|] == log;
    }
  }

  lemma {:induction false} LivesBeginByTaking(c: Campaign, log: seq<Event>, call: CallId)
    requires Ordered(c, log) && Last(log, call).Some?
    ensures Took(call) in log
    decreases |log|
  {
    var n := |log| - 1;
    var e := log[n];
    if e != Took(call) {
      assert Ordered(c, log[..n]) by {
        forall i | 0 <= i < n ensures log[i].Retried? || Follows(c, Last(log[..n][..i], log[i].call), log[i]) {
          assert log[..n][..i] == log[..i];
        }
      }
      LivesBeginByTaking(c, log[..n], call);
    }
  }

  // ----- where a worker stands in it

  predicate Carries(pc: Pc) {
    !pc.Idle? && !pc.Settling?
  }

  predicate Stands(pc: Pc, last: Option<Event>)
    requires Carries(pc)
  {
    match pc
    case Reserved(call) => last == Some(Took(call))
    case Claimed(call, t) => last.Some? && last.value.ClaimedAt? && last.value.target == t
    case Asking(call, t) => last == Some(BeganPlacing(t, call))
    case Placed(call, _) => last == Some(Rang(call))
    case Unrecorded(call, _) => last == Some(Rang(call))
    case NotDialled(_, _, _) => Unsettled(last)
    case Returning(_) => Unsettled(last)
  }

  ghost predicate Carried(s: Sys, call: CallId) {
    exists w: WorkerId :: Carries(s.At(w)) && s.At(w).call == call
  }

  ghost predicate EachStands(s: Sys) {
    forall w: WorkerId {:trigger s.At(w)} :: Carries(s.At(w)) ==>
      Stands(s.At(w), Last(s.log, s.At(w).call)) && s.At(w).call !in s.orphans
  }

  ghost predicate NoneShared(s: Sys) {
    forall w, v: WorkerId {:trigger s.At(w), s.At(v)} ::
      Carries(s.At(w)) && Carries(s.At(v)) && s.At(w).call == s.At(v).call ==> w == v
  }

  /** A call id is unsettled exactly while a worker carries it to the carrier or back,
      or once that worker has died with it. */
  ghost predicate EachOwned(s: Sys) {
    && (forall x :: x in s.orphans ==> Unsettled(Last(s.log, x)))
    && (forall x {:trigger Last(s.log, x)} :: Unsettled(Last(s.log, x)) ==> x in s.orphans || Carried(s, x))
  }

  ghost predicate Lives(c: Campaign, s: Sys) {
    EachStands(s) && NoneShared(s) && EachOwned(s) && Ordered(c, s.log)
  }

  // ----- a step is about one worker and the call id it carries

  /** Only worker `w` and `call` move, which nobody else carries. */
  ghost predicate OneCall(s: Sys, now: Sys, w: WorkerId, call: CallId) {
    && (forall v: WorkerId :: v != w ==> now.At(v) == s.At(v))
    && (forall v: WorkerId :: v != w && Carries(s.At(v)) ==> s.At(v).call != call)
    && (Carries(s.At(w)) ==> s.At(w).call == call)
    && (forall x :: x != call ==> Last(now.log, x) == Last(s.log, x) && (x in now.orphans <==> x in s.orphans))
  }

  ghost predicate LivesHere(now: Sys, w: WorkerId, call: CallId) {
    var pc, last := now.At(w), Last(now.log, call);
    && (Carries(pc) ==> pc.call == call && Stands(pc, last) && call !in now.orphans)
    && (call in now.orphans ==> Unsettled(last))
    && (Unsettled(last) ==> call in now.orphans || Carries(pc))
  }

  lemma OneCallStands(s: Sys, now: Sys, w: WorkerId, call: CallId)
    requires EachStands(s) && NoneShared(s) && OneCall(s, now, w, call) && LivesHere(now, w, call)
    ensures EachStands(now) && NoneShared(now)
  {
    forall v: WorkerId | Carries(now.At(v))
      ensures Stands(now.At(v), Last(now.log, now.At(v).call)) && now.At(v).call !in now.orphans
    {
      assert v != w ==> now.At(v) == s.At(v);
    }
    forall v, u: WorkerId | Carries(now.At(v)) && Carries(now.At(u)) && now.At(v).call == now.At(u).call
      ensures v == u
    {
      assert v != w ==> now.At(v) == s.At(v) && s.At(v).call != call;
      assert u != w ==> now.At(u) == s.At(u) && s.At(u).call != call;
    }
  }

  lemma OneCallOwned(s: Sys, now: Sys, w: WorkerId, call: CallId)
    requires EachOwned(s) && OneCall(s, now, w, call) && LivesHere(now, w, call)
    ensures EachOwned(now)
  {
    forall x | Unsettled(Last(now.log, x)) ensures x in now.orphans || Carried(now, x) {
      if x != call && x !in s.orphans {
        assert Unsettled(Last(s.log, x));
        var v: WorkerId :| Carries(s.At(v)) && s.At(v).call == x;
        assert Carries(now.At(v)) && now.At(v).call == x;
      } else if x == call && Carries(now.At(w)) {
        assert Carries(now.At(w)) && now.At(w).call == x;
      }
    }
  }

  lemma OneCallLives(c: Campaign, s: Sys, now: Sys, w: WorkerId, call: CallId)
    requires Lives(c, s) && OneCall(s, now, w, call) && LivesHere(now, w, call) && Ordered(c, now.log)
    ensures Lives(c, now)
  {
    OneCallStands(s, now, w, call);
    OneCallOwned(s, now, w, call);
  }

  /** A step that changes neither workers, log nor orphans changes nothing here. */
  lemma SameLives(c: Campaign, s: Sys, now: Sys)
    requires Lives(c, s) && now.pcs == s.pcs && now.log == s.log && now.orphans == s.orphans
    ensures Lives(c, now)
  {
    forall w: WorkerId ensures now.At(w) == s.At(w) {
    }
    forall x | Unsettled(Last(now.log, x)) ensures x in now.orphans || Carried(now, x) {
      if x !in s.orphans {
        assert Carried(s, x);
        var v: WorkerId :| Carries(s.At(v)) && s.At(v).call == x;
        assert Carries(now.At(v)) && now.At(v).call == x;
      }
    }
  }

  /** Worker `w` goes from carrying `call` to `pc`, with nothing to note. */
  lemma GoLives(c: Campaign, s: Sys, mid: Sys, w: WorkerId, pc: Pc)
    requires Lives(c, s) && mid.pcs == s.pcs && mid.log == s.log && mid.orphans == s.orphans && Carries(s.At(w))
    requires
      var call := s.At(w).call;
      var last := Last(s.log, call);
      if Carries(pc) then pc.call == call && Stands(pc, last) else !Unsettled(last)
    ensures Lives(c, mid.Go(w, pc))
  {
    OneCallLives(c, s, mid.Go(w, pc), w, s.At(w).call);
  }

  /** Or with one event about `call` to note. */
  lemma NoteLives(c: Campaign, s: Sys, mid: Sys, w: WorkerId, e: Event, pc: Pc)
    requires Lives(c, s) && mid.pcs == s.pcs && mid.log == s.log && mid.orphans == s.orphans && Carries(s.At(w))
    requires !e.Retried? && e.call == s.At(w).call && Follows(c, Last(s.log, e.call), e)
    requires if Carries(pc) then pc.call == e.call && Stands(pc, Some(e)) else e.Freed?
    ensures Lives(c, mid.Note(e).Go(w, pc))
  {
    LastsAfter(s.log, e);
    OneMoreOrdered(c, s.log, e);
    OneCallLives(c, s, mid.Note(e).Go(w, pc), w, e.call);
  }

  lemma ReserveLives(c: Campaign, s: Sys, w: WorkerId, call: CallId)
    requires Lives(c, s) && s.At(w).Idle? && Took(call) !in s.log
    ensures Lives(c, s.(slots := s.slots + {call}).Note(Took(call)).Go(w, Reserved(call)))
  {
    if Last(s.log, call).Some? {
      LivesBeginByTaking(c, s.log, call);
    }
    var now := s.(slots := s.slots + {call}).Note(Took(call)).Go(w, Reserved(call));
    LastsAfter(s.log, Took(call));
    OneMoreOrdered(c, s.log, Took(call));
    OneCallLives(c, s, now, w, call);
  }

  lemma ClaimLives(c: Campaign, s: Sys, w: WorkerId, call: CallId, t: TargetId, now: Instant)
    requires Lives(c, s) && s.At(w) == Reserved(call) && t in s.rows
    ensures Lives(c, DoClaim(c, s, w, call, t, now))
  {
    var row, opens := s.rows[t], NextOpen(c.zone(t), c.window, now);
    NowIsInWindow(c.zone(t), c.window, now);
    if opens <= now {
      NoteLives(c, s, s.Put(t, row.(status := Dialling, claimedAt := Some(now))), w,
                ClaimedAt(t, call, now), Claimed(call, t));
    } else {
      GoLives(c, s, s.Put(t, row.(nextAttemptAt := Some(opens), claimedAt := None)), w, Returning(call));
    }
  }

  lemma BeginPlacingLives(c: Campaign, s: Sys, w: WorkerId, call: CallId, t: TargetId, now: Instant)
    requires Lives(c, s) && s.At(w) == Claimed(call, t)
    ensures Lives(c, DoBeginPlacing(s, w, call, t, now))
  {
    if s.In(t, {Dialling}) && s.status == Running {
      var mid := s.(slots := s.slots + {call}, lapsed := s.lapsed - {call})
        .Put(t, s.rows[t].(status := Placing, claimedAt := Some(now)));
      NoteLives(c, s, mid, w, BeganPlacing(t, call), Asking(call, t));
    } else {
      var mid := s.(slots := s.slots - {call}, lapsed := s.lapsed - {call});
      GoLives(c, s, mid, w, NotDialled(call, t, LostClaim));
    }
  }

  lemma AskLives(c: Campaign, s: Sys, w: WorkerId, call: CallId, t: TargetId, placed: bool)
    requires Lives(c, s) && s.At(w) == Asking(call, t)
    ensures Lives(c, WorkerDo(c, s, w, AskCarrier(placed)))
  {
    if placed {
      LastsAfter(s.log, Asked(t, call));
      OneMoreOrdered(c, s.log, Asked(t, call));
      LastsAfter(s.log + [Asked(t, call)], Rang(call));
      OneMoreOrdered(c, s.log + [Asked(t, call)], Rang(call));
      OneCallLives(c, s, WorkerDo(c, s, w, AskCarrier(true)), w, call);
    } else {
      NoteLives(c, s, s.(slots := s.slots - {call}), w, Asked(t, call), NotDialled(call, t, Refused(false)));
    }
  }

  lemma DieLives(c: Campaign, s: Sys, w: WorkerId)
    requires Lives(c, s)
    ensures Lives(c, s.(orphans := s.orphans + Holding(s.At(w))).Go(w, Idle))
  {
    var now := s.(orphans := s.orphans + Holding(s.At(w))).Go(w, Idle);
    if Carries(s.At(w)) {
      OneCallLives(c, s, now, w, s.At(w).call);
    } else {
      IdlingLives(c, s, w, Idle);
      assert now == s.Go(w, Idle);
    }
  }

  /** A worker with no call id goes about settling. */
  lemma IdlingLives(c: Campaign, s: Sys, w: WorkerId, pc: Pc)
    requires Lives(c, s) && !Carries(s.At(w)) && !Carries(pc)
    ensures Lives(c, s.Go(w, pc))
  {
    var now := s.Go(w, pc);
    forall v: WorkerId ensures Carries(now.At(v)) ==> now.At(v) == s.At(v) {
    }
    forall x | Unsettled(Last(now.log, x)) ensures x in now.orphans || Carried(now, x) {
      if x !in s.orphans {
        assert Carried(s, x);
        var v: WorkerId :| Carries(s.At(v)) && s.At(v).call == x;
        assert Carries(now.At(v)) && now.At(v).call == x;
      }
    }
  }

  /** A retry is about no call id. */
  lemma RetriedLives(c: Campaign, s: Sys, e: Event)
    requires Lives(c, s) && e.Retried?
    ensures Lives(c, s.Note(e))
  {
    var now := s.Note(e);
    LastsAfter(s.log, e);
    OneMoreOrdered(c, s.log, e);
    forall v: WorkerId ensures now.At(v) == s.At(v) {
    }
    forall x | Unsettled(Last(now.log, x)) ensures x in now.orphans || Carried(now, x) {
      if x !in s.orphans {
        assert Unsettled(Last(s.log, x));
        var v: WorkerId :| Carries(s.At(v)) && s.At(v).call == x;
        assert Carries(now.At(v)) && now.At(v).call == x;
      }
    }
  }

  lemma SettleLives(c: Campaign, s: Sys, w: WorkerId, seen: seq<Ended>, now: Instant)
    requires Lives(c, s) && s.At(w) == Settling(seen) && seen != []
    ensures Lives(c, DoSettle(c, s, seen[0], now).Go(w, Settling(seen[1..])))
  {
    var e := seen[0];
    var at := RetryAt(c.policy, e.reason, e.attempts, now, c.zone(e.target), c.window);
    var mid := DoSettle(c, s, e, now);
    if at.Some? && s.In(e.target, {Calling}) {
      var row := s.rows[e.target];
      var put := s.Put(e.target, row.(status := Pending, nextAttemptAt := at));
      SameLives(c, s, put);
      RetriedLives(c, put,
        Retried(e.target, e.call, e.reason, now, at.value, row.callId != Some(e.call)));
    } else {
      SameLives(c, s, mid);
    }
    IdlingLives(c, mid, w, Settling(seen[1..]));
  }

  lemma HandBackLives(c: Campaign, s: Sys, w: WorkerId, call: CallId, t: TargetId, why: Why)
    requires Lives(c, s) && s.At(w) == NotDialled(call, t, why)
    ensures Lives(c, DoHandBack(s, t, why).Go(w, Returning(call)))
  {
    GoLives(c, s, DoHandBack(s, t, why), w, Returning(call));
  }

  lemma RecordLives(c: Campaign, s: Sys, w: WorkerId, call: CallId, t: TargetId, wrote: bool, heard: bool)
    requires Lives(c, s) && s.At(w) == Placed(call, t)
    ensures Lives(c, (if wrote then DoRecord(s, call, t) else s).Go(w, if heard then Idle else Unrecorded(call, t)))
  {
    GoLives(c, s, if wrote then DoRecord(s, call, t) else s, w, if heard then Idle else Unrecorded(call, t));
  }

  predicate ToTheCarrier(move: WorkerMove) {
    move.Claim? || move.BeginPlacing? || move.AskCarrier? || move.RecordDial? || move.GiveUpRecording?
  }

  lemma DialLives(c: Campaign, s: Sys, w: WorkerId, move: WorkerMove)
    requires Lives(c, s) && ToTheCarrier(move)
    ensures Lives(c, WorkerDo(c, s, w, move))
  {
    match (s.At(w), move) {
      case (Reserved(call), Claim(t, now)) =>
        if t in s.rows {
          ClaimLives(c, s, w, call, t, now);
        }
      case (Claimed(call, t), BeginPlacing(now)) => BeginPlacingLives(c, s, w, call, t, now);
      case (Asking(call, t), AskCarrier(placed)) => AskLives(c, s, w, call, t, placed);
      case (Placed(call, t), RecordDial(wrote, heard)) => RecordLives(c, s, w, call, t, wrote, heard);
      case (Unrecorded(call, t), GiveUpRecording(wrote)) =>
        GoLives(c, s, if wrote then DoFinish(s, t, Failed) else s, w, Idle);
      case _ =>
    }
  }

  predicate BackFromIt(move: WorkerMove) {
    move.ClaimNothing? || move.RefuseEarly? || move.HandBack? || move.GiveBack?
  }

  lemma ReturnLives(c: Campaign, s: Sys, w: WorkerId, move: WorkerMove)
    requires Lives(c, s) && BackFromIt(move)
    ensures Lives(c, WorkerDo(c, s, w, move))
  {
    match (s.At(w), move) {
      case (Reserved(call), ClaimNothing) => GoLives(c, s, s, w, Returning(call));
      case (Claimed(call, t), RefuseEarly(why, freed)) =>
        GoLives(c, s, s.(slots := if freed then s.slots - {call} else s.slots), w, NotDialled(call, t, why));
      case (NotDialled(call, t, why), HandBack) => HandBackLives(c, s, w, call, t, why);
      case (Returning(call), GiveBack) =>
        NoteLives(c, s, s.(slots := s.slots - {call}), w, Freed(call), Idle);
      case _ =>
    }
  }

  lemma WorkerLives(c: Campaign, s: Sys, w: WorkerId, move: WorkerMove)
    requires Lives(c, s) && !ToTheCarrier(move) && !BackFromIt(move)
    ensures Lives(c, WorkerDo(c, s, w, move))
  {
    match (s.At(w), move) {
      case (Idle, Reserve(call)) =>
        if Took(call) !in s.log {
          ReserveLives(c, s, w, call);
        }
      case (pc, Die) => DieLives(c, s, w);
      case (Idle, ReadEnded(seen)) => IdlingLives(c, s, w, Settling(seen));
      case (Settling(seen), SettleOne(now)) =>
        if seen == [] {
          IdlingLives(c, s, w, Idle);
        } else {
          SettleLives(c, s, w, seen, now);
        }
      case _ =>
    }
  }

  lemma StepLives(c: Campaign, s: Sys, a: Action)
    requires Lives(c, s)
    ensures Lives(c, Do(c, s, a))
  {
    match a {
      case Worker(w, move) =>
        if ToTheCarrier(move) {
          DialLives(c, s, w, move);
        } else if BackFromIt(move) {
          ReturnLives(c, s, w, move);
        } else {
          WorkerLives(c, s, w, move);
        }
      case Other(step) => OtherLives(c, s, step);
    }
  }

  lemma OtherLives(c: Campaign, s: Sys, step: OtherMove)
    requires Lives(c, s)
    ensures Lives(c, OtherDo(s, step))
  {
    SameLives(c, s, OtherDo(s, step));
  }

  lemma {:induction false} EveryRunLives(c: Campaign, init: Sys, steps: seq<Action>)
    requires Fresh(init)
    ensures Lives(c, After(c, init, steps))
    decreases |steps|
  {
    if steps != [] {
      EveryRunLives(c, init, steps[..|steps| - 1]);
      StepLives(c, After(c, init, steps[..|steps| - 1]), steps[|steps| - 1]);
    }
  }

  // ----- what that says of a whole run

  function Rank(e: Event): nat
    requires !e.Retried?
  {
    match e
    case Took(_) => 0
    case ClaimedAt(_, _, _) => 1
    case BeganPlacing(_, _) => 2
    case Asked(_, _) => 3
    case Rang(_) => 4
    case Freed(_) => 4
  }

  lemma FollowingRanksHigher(c: Campaign, last: Event, e: Event)
    requires !last.Retried? && !e.Retried? && Follows(c, Some(last), e)
    ensures Rank(last) < Rank(e)
  {
  }

  lemma {:induction false} LastRanksHighest(c: Campaign, log: seq<Event>, i: nat, n: nat)
    requires Ordered(c, log) && i < n <= |log| && !log[i].Retried?
    ensures
      var last := Last(log[..n], log[i].call);
      last.Some? && !last.value.Retried? && Rank(log[i]) <= Rank(last.value)
    decreases n
  {
    var e := log[n - 1];
    assert log[..n] == log[..n - 1] + [e];
    LastAfter(log[..n - 1], e, log[i].call);
    if i + 1 < n {
      LastRanksHighest(c, log, i, n - 1);
      if !e.Retried? && e.call == log[i].call {
        FollowingRanksHigher(c, Last(log[..n - 1], e.call).value, e);
      }
    }
  }

  /** In every run the events of one call id come in one order, each at most once:
      taken, claimed, moved to placing, asked of the carrier; and it is given back
      or rings, never both and never twice. */
  lemma OncePerCall(c: Campaign, init: Sys, steps: seq<Action>, i: nat, j: nat)
    requires Fresh(init)
    requires
      var log := After(c, init, steps).log;
      i < j < |log| && !log[i].Retried? && !log[j].Retried? && log[i].call == log[j].call
    ensures
      var log := After(c, init, steps).log;
      Rank(log[i]) < Rank(log[j])
  {
    var log := After(c, init, steps).log;
    EveryRunLives(c, init, steps);
    LastRanksHighest(c, log, i, j);
    FollowingRanksHigher(c, Last(log[..j], log[i].call).value, log[j]);
  }

  lemma {:induction false} LastIsThere(log: seq<Event>, call: CallId) returns (i: nat)
    requires Last(log, call).Some?
    ensures i < |log| && log[i] == Last(log, call).value && !log[i].Retried? && log[i].call == call
    decreases |log|
  {
    i := |log| - 1;
    if log[i].Retried? || log[i].call != call {
      i := LastIsThere(log[..i], call);
    }
  }

  /** In every run each ask of the carrier follows a move of that target to placing
      under the same call id, itself after a claim inside the target's window; with
      `OncePerCall`, one ask for each such move. */
  lemma AskedUnderItsOwnPlacing(c: Campaign, init: Sys, steps: seq<Action>, j: nat) returns (k: nat, i: nat)
    requires Fresh(init)
    requires j < |After(c, init, steps).log| && After(c, init, steps).log[j].Asked?
    ensures
      var log := After(c, init, steps).log;
      && k < i < j
      && log[i] == BeganPlacing(log[j].target, log[j].call)
      && log[k].ClaimedAt? && log[k].target == log[j].target && log[k].call == log[j].call
      && MayCallAt(c.zone(log[j].target), c.window, log[k].now)
  {
    var log := After(c, init, steps).log;
    EveryRunLives(c, init, steps);
    assert Follows(c, Last(log[..j], log[j].call), log[j]);
    i := LastIsThere(log[..j], log[j].call);
    assert Follows(c, Last(log[..i], log[j].call), log[i]);
    k := LastIsThere(log[..i], log[j].call);
    assert Follows(c, Last(log[..k], log[j].call), log[k]);
  }

  ghost predicate Held(s: Sys, call: CallId) {
    exists w: WorkerId :: call in Holding(s.At(w))
  }

  lemma HeldIsUnsettled(c: Campaign, s: Sys, call: CallId)
    requires Lives(c, s)
    ensures Held(s, call) ==> Unsettled(Last(s.log, call)) && call !in s.orphans
    ensures Unsettled(Last(s.log, call)) ==> call in s.orphans || Held(s, call)
  {
    if Held(s, call) {
      var w: WorkerId :| call in Holding(s.At(w));
      assert Carries(s.At(w)) && s.At(w).call == call;
    }
    if Unsettled(Last(s.log, call)) && call !in s.orphans {
      var w: WorkerId :| Carries(s.At(w)) && s.At(w).call == call;
      assert call in Holding(s.At(w));
    }
  }

  /** In every run a reservation taken is at each moment exactly one of: held by one
      worker, left behind by its death, given back, or a placed call's. */
  lemma EveryReservationHasOneOwner(c: Campaign, init: Sys, steps: seq<Action>, call: CallId)
    requires Fresh(init)
    requires Took(call) in After(c, init, steps).log
    ensures
      var s := After(c, init, steps);
      && (Freed(call) in s.log || Rang(call) in s.log <==> !Held(s, call) && call !in s.orphans)
      && !(Held(s, call) && call in s.orphans)
      && !(Freed(call) in s.log && Rang(call) in s.log)
      && forall w, v: WorkerId :: call in Holding(s.At(w)) && call in Holding(s.At(v)) ==> w == v
  {
    var s := After(c, init, steps);
    EveryRunLives(c, init, steps);
    HeldIsUnsettled(c, s, call);
    SettledIsLast(c, s.log, call);
  }

  lemma SettledIsLast(c: Campaign, log: seq<Event>, call: CallId)
    requires Ordered(c, log) && Took(call) in log
    ensures Unsettled(Last(log, call)) <==> Freed(call) !in log && Rang(call) !in log
    ensures Freed(call) !in log || Rang(call) !in log
  {
    assert log[..|log|] == log;
    forall i | 0 <= i < |log| && !log[i].Retried? && log[i].call == call
      ensures Last(log, call).Some? && !Last(log, call).value.Retried? && Rank(log[i]) <= Rank(Last(log, call).value)
    {
      LastRanksHighest(c, log, i, |log|);
    }
    var k := LastIsThere(log, call);
    if Freed(call) in log && Rang(call) in log {
      var i :| 0 <= i < |log| && log[i] == Freed(call);
      var j :| 0 <= j < |log| && log[j] == Rang(call);
      NotTwice(c, log, i, j);
    }
  }

  /** No call id is both given back and rung, at whichever positions. */
  lemma NotTwice(c: Campaign, log: seq<Event>, i: nat, j: nat)
    requires Ordered(c, log) && i < |log| && j < |log|
    requires !log[i].Retried? && !log[j].Retried? && log[i].call == log[j].call && Rank(log[i]) == Rank(log[j])
    ensures i == j
  {
    if i < j {
      LastRanksHighest(c, log, i, j);
      FollowingRanksHigher(c, Last(log[..j], log[i].call).value, log[j]);
    } else if j < i {
      LastRanksHighest(c, log, j, i);
      FollowingRanksHigher(c, Last(log[..i], log[i].call).value, log[i]);
    }
  }
}
