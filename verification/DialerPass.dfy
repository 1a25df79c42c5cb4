/**
 The worker's own code: one dial from its reservation to its release, and one pass of
 settling, each committing the steps of the model while the other processes commit
 theirs in between.
 */
module DialerPass {
  import opened Options
  import opened Schedule
  import opened Dialer
  import opened DialerCalls
  import opened DialerRows

  /** What a dial meets on its way: whether the limits admit it, whether and why it is
      refused before the carrier is asked, whether the carrier places it, and whether
      recording it, or giving that up, is committed and heard to be. */
  datatype Fate = Fate(
    admitted: bool,
    refusal: Option<Why>,
    freed: bool,
    placed: bool,
    wrote: bool,
    heard: bool,
    saved: bool)
  {
    predicate Possible() {
      refusal != Some(LostClaim) && (heard ==> wrote)
    }
  }

  /** Between which of a dial's steps the other processes commit theirs. */
  datatype Gap = AfterReserving | AfterClaiming | AfterPlacing | AfterTrying | AfterRecording | BeforeRelease

  /** What became of a dial. */
  datatype Outcome =
    | NotAdmitted
    | NoTarget
    | Deferred(target: TargetId)
    | TurnedAway(target: TargetId, why: Why)
    | Overtaken(target: TargetId)
    | NotPlaced(target: TargetId)
    | CallPlaced(target: TargetId)

  function Claims(call: CallId, t: TargetId, now: Instant): seq<WorkerMove> {
    [Reserve(call)] + [Claim(t, now)]
  }

  /** The moves of `w` among the steps of everybody. */
  function Own(steps: seq<Action>, w: WorkerId): seq<WorkerMove>
    decreases |steps|
  {
    if steps == [] then []
    else
      var before, last := Own(steps[..|steps| - 1], w), steps[|steps| - 1];
      if NotOf(w, last) || !last.Worker? then before else before + [last.move]
  }

  /** A step more of a run, somebody's or `w`'s own. */
  lemma OneStepOn(c: Campaign, init: Sys, steps: seq<Action>, a: Action, w: WorkerId)
    ensures
      var s, now := After(c, init, steps), After(c, init, steps + [a]);
      && now == Do(c, s, a) && s.log <= now.log && (NotOf(w, a) ==> now.At(w) == s.At(w))
      && Own(steps + [a], w) == Own(steps, w) + (if a.Worker? && a.w == w then [a.move] else [])
  {
    AfterThen(c, init, steps, a);
    DoGrowsTheLog(c, After(c, init, steps), a);
    OwnAfter(steps, a, w);
    if NotOf(w, a) {
      OthersLeaveIt(c, After(c, init, steps), a, w);
    }
  }

  lemma OwnAfter(steps: seq<Action>, a: Action, w: WorkerId)
    ensures Own(steps + [a], w) == Own(steps, w) + if a.Worker? && a.w == w then [a.move] else []
  {
    assert (steps + [a])[..|steps|] == steps;
  }

  /** Every step before the carrier's answer, and before the release. */
  function UpToAnswer(call: CallId, now: Instant, placing: Instant, fate: Fate, outcome: Outcome): seq<WorkerMove> {
    match outcome
    case TurnedAway(t, why) => Claims(call, t, now) + [RefuseEarly(why, fate.freed)]
    case Overtaken(t) => Claims(call, t, now) + [BeginPlacing(placing)]
    case NotPlaced(t) => Claims(call, t, now) + [BeginPlacing(placing)] + [AskCarrier(false)]
    case CallPlaced(t) => Claims(call, t, now) + [BeginPlacing(placing)] + [AskCarrier(true)]
    case Deferred(t) => Claims(call, t, now)
    case _ => [Reserve(call)] + [ClaimNothing]
  }

  function UpToRelease(call: CallId, now: Instant, placing: Instant, fate: Fate, outcome: Outcome): seq<WorkerMove> {
    var answered := UpToAnswer(call, now, placing, fate, outcome);
    match outcome
    case TurnedAway(_, _) => answered + [HandBack]
    case Overtaken(_) => answered + [HandBack]
    case NotPlaced(_) => answered + [HandBack]
    case CallPlaced(_) =>
      var recorded := answered + [RecordDial(fate.wrote, fate.heard)];
      if fate.heard then recorded else recorded + [GiveUpRecording(fate.saved)]
    case _ => answered
  }

  /** The steps of a dial, by its outcome: none, or from the reservation to the release,
      or to the call's record. */
  function DialMoves(call: CallId, now: Instant, placing: Instant, fate: Fate, outcome: Outcome): seq<WorkerMove> {
    if outcome.NotAdmitted? then []
    else
      var moves := UpToRelease(call, now, placing, fate, outcome);
      if outcome.CallPlaced? then moves else moves + [GiveBack]
  }

  /** A dial's outcome is what it met on its way, unless its claim was gone. */
  predicate AsFated(fate: Fate, t: TargetId, outcome: Outcome) {
    if fate.refusal.Some? then outcome == TurnedAway(t, fate.refusal.value)
    else outcome == Overtaken(t) || outcome == if fate.placed then CallPlaced(t) else NotPlaced(t)
  }

  ghost predicate ByOthers(w: WorkerId, others: Gap -> seq<Action>) {
    forall gap, a :: a in others(gap) ==> NotOf(w, a)
  }

  // ----- what the other processes moved

  /** Some step of another process, from the `from`-th on, changed the target's row. */
  ghost predicate MovedByOthers(c: Campaign, init: Sys, ran: seq<Action>, from: nat, w: WorkerId, t: TargetId) {
    exists k :: from <= k < |ran| && NotOf(w, ran[k])
                && RowOf(After(c, init, ran[..k + 1]), t) != RowOf(After(c, init, ran[..k]), t)
  }

  lemma StillMoved(c: Campaign, init: Sys, ran: seq<Action>, more: seq<Action>, from: nat, later: nat,
                   w: WorkerId, t: TargetId)
    requires from <= later && MovedByOthers(c, init, ran, later, w, t) && ran <= more
    ensures MovedByOthers(c, init, more, from, w, t)
  {
    var k :| later <= k < |ran| && NotOf(w, ran[k])
             && RowOf(After(c, init, ran[..k + 1]), t) != RowOf(After(c, init, ran[..k]), t);
    assert more[..k + 1] == ran[..k + 1] && more[..k] == ran[..k];
  }

  lemma OthersStepMoves(c: Campaign, init: Sys, ran: seq<Action>, a: Action, w: WorkerId, t: TargetId)
    requires NotOf(w, a)
    ensures
      || RowOf(After(c, init, ran + [a]), t) == RowOf(After(c, init, ran), t)
      || MovedByOthers(c, init, ran + [a], |ran|, w, t)
  {
    assert (ran + [a])[..|ran| + 1] == ran + [a];
    assert (ran + [a])[..|ran|] == ran;
  }

  // ----- settling

  /** The target's call has ended, and waits to be settled. */
  predicate EndedHere(s: Sys, t: TargetId) {
    && s.In(t, {Calling}) && s.rows[t].callId.Some? && s.rows[t].callId.value in s.calls
    && s.calls[s.rows[t].callId.value].ended.Some?
  }

  predicate Reads(seen: seq<Ended>, t: TargetId) {
    exists e :: e in seen && e.target == t
  }

  /** Every calling target whose call has ended is read as it is, once. */
  ghost predicate AllEnded(s: Sys, seen: seq<Ended>) {
    && EachOnce(seen) && (forall e :: e in seen ==> ReadsWhatIsThere(s, e))
    && forall t :: EndedHere(s, t) ==> Reads(seen, t)
  }

  lemma OneReadMore(s: Sys, seen: seq<Ended>, e: Ended)
    requires EachOnce(seen) && forall d :: d in seen ==> d.target != e.target
    ensures EachOnce(seen + [e]) && Reads(seen + [e], e.target)
    ensures forall t :: Reads(seen, t) ==> Reads(seen + [e], t)
  {
    assert (seen + [e])[|seen|] == e;
  }

  /** The endings read, and `n` of them written. */
  function SettlingMoves(seen: seq<Ended>, now: Instant, n: nat): seq<WorkerMove> {
    if n == 0 then [ReadEnded(seen)] else SettlingMoves(seen, now, n - 1) + [SettleOne(now)]
  }

  class Project {
    const campaign: Campaign
    var db: Sys
    ghost const began: Sys
    ghost var ran: seq<Action>

    constructor (campaign: Campaign, db: Sys)
      requires Fresh(db)
      ensures this.campaign == campaign && this.db == db && began == db && ran == [] && Valid()
    {
      this.campaign := campaign;
      this.db := db;
      began := db;
      ran := [];
    }

    /** Since `start` the worker's own steps were these. */
    ghost predicate Did(w: WorkerId, start: seq<Action>, moves: seq<WorkerMove>)
      reads this
    {
      start <= ran && Own(ran, w) == Own(start, w) + moves
    }

    ghost predicate Moved(w: WorkerId, from: nat, t: TargetId)
      reads this
    {
      MovedByOthers(campaign, began, ran, from, w, t)
    }

    /** What the tables hold is what the steps committed so far made of them. */
    ghost predicate Valid()
      reads this
    {
      Fresh(began) && db == After(campaign, began, ran)
    }

    /** Another process commits a step of its. */
    method Elsewhere(w: WorkerId, a: Action)
      requires Valid() && NotOf(w, a)
      modifies this
      ensures Valid() && ran == old(ran) + [a]
      ensures db.At(w) == old(db.At(w)) && old(db.log) <= db.log
      ensures Own(ran, w) == Own(old(ran), w)
      ensures forall t :: RowOf(db, t) == old(RowOf(db, t)) || Moved(w, |old(ran)|, t)
    {
      OneStepOn(campaign, began, ran, a, w);
      forall t
        ensures RowOf(After(campaign, began, ran + [a]), t) == RowOf(After(campaign, began, ran), t)
                || MovedByOthers(campaign, began, ran + [a], |ran|, w, t)
      {
        OthersStepMoves(campaign, began, ran, a, w, t);
      }
      db := Do(campaign, db, a);
      ran := ran + [a];
    }

    /** The other processes commit steps of theirs. */
    method Meanwhile(w: WorkerId, others: seq<Action>)
      requires Valid() && forall a :: a in others ==> NotOf(w, a)
      modifies this
      ensures Valid() && ran == old(ran) + others
      ensures db.At(w) == old(db.At(w)) && old(db.log) <= db.log
      ensures Own(ran, w) == Own(old(ran), w)
      ensures forall t :: RowOf(db, t) == old(RowOf(db, t)) || Moved(w, |old(ran)|, t)
      decreases |others|
    {
      if others != [] {
        ghost var start, rows := ran, db;
        Elsewhere(w, others[0]);
        ghost var mid := ran;
        Meanwhile(w, others[1..]);
        assert others == [others[0]] + others[1..];
        forall t ensures RowOf(db, t) == RowOf(rows, t) || Moved(w, |start|, t) {
          StillMovedFrom(w, mid, |mid|, |start|, t);
          StillMovedFrom(w, mid, |start|, |start|, t);
        }
      }
    }

    /** What was moved before is moved still, from there or from earlier on. */
    lemma StillMovedFrom(w: WorkerId, before: seq<Action>, later: nat, from: nat, t: TargetId)
      requires before <= ran && from <= later
      ensures MovedByOthers(campaign, began, before, later, w, t) ==> Moved(w, from, t)
      ensures Moved(w, later, t) ==> Moved(w, from, t)
    {
      if MovedByOthers(campaign, began, before, later, w, t) {
        StillMoved(campaign, began, before, ran, from, later, w, t);
      }
      if Moved(w, later, t) {
        StillMoved(campaign, began, ran, ran, from, later, w, t);
      }
    }

    /** Others go on, and the worker's own steps are as they were. */
    method Gapped(w: WorkerId, others: seq<Action>, ghost start: seq<Action>, ghost did: seq<WorkerMove>)
      requires Valid() && Did(w, start, did) && forall a :: a in others ==> NotOf(w, a)
      modifies this
      ensures Valid() && Did(w, start, did) && db.At(w) == old(db.At(w)) && old(db.log) <= db.log
    {
      Meanwhile(w, others);
    }

    /** The worker commits a step of its own. */
    method Commit(w: WorkerId, move: WorkerMove, now: Sys, ghost start: seq<Action>, ghost did: seq<WorkerMove>)
      requires Valid() && now == WorkerDo(campaign, db, w, move) && Did(w, start, did)
      modifies this
      ensures Valid() && ran == old(ran) + [Worker(w, move)] && db == now && old(db.log) <= db.log
      ensures Did(w, start, did + [move])
    {
      OneStepOn(campaign, began, ran, Worker(w, move), w);
      db := now;
      ran := ran + [Worker(w, move)];
    }

    /** `reserve_dial`, admitted. */
    method ReserveDial(w: WorkerId, call: CallId, ghost start: seq<Action>)
      requires Valid() && db.At(w).Idle? && Took(call) !in db.log && Did(w, start, [])
      modifies this
      ensures Valid() && Did(w, start, [Reserve(call)]) && db.At(w) == Reserved(call)
      ensures db.rows == old(db).rows && db.slots == old(db).slots + {call}
    {
      Commit(w, Reserve(call), db.(slots := db.slots + {call}).Note(Took(call)).Go(w, Reserved(call)), start, []);
    }

    /** `release_dial`. */
    method ReleaseDial(w: WorkerId, call: CallId, ghost start: seq<Action>, ghost did: seq<WorkerMove>)
      requires Valid() && db.At(w) == Returning(call) && Did(w, start, did)
      modifies this
      ensures Valid() && Did(w, start, did + [GiveBack])
      ensures db.At(w).Idle? && Freed(call) in db.log
      ensures db.rows == old(db).rows && db.slots == old(db).slots - {call}
    {
      Commit(w, GiveBack, db.(slots := db.slots - {call}).Note(Freed(call)).Go(w, Idle), start, did);
    }

    /** A due target is claimed, or deferred until its window opens. */
    method ClaimIt(w: WorkerId, call: CallId, t: TargetId, now: Instant, ghost start: seq<Action>)
      returns (deferred: bool)
      requires Valid() && db.At(w) == Reserved(call) && Did(w, start, [Reserve(call)])
      requires db.status == Running && db.Waiting(t, now)
      modifies this
      ensures Valid() && t in db.rows && Did(w, start, [Reserve(call)] + [Claim(t, now)])
      ensures deferred <==> now < NextOpen(campaign.zone(t), campaign.window, now)
      ensures if deferred then PutOff(campaign, t, old(db).rows[t], db.rows[t], now)
              else MayCallAt(campaign.zone(t), campaign.window, now) && TakenUp(old(db).rows[t], db.rows[t], now)
      ensures OnlyRow(old(db), db, t)
      ensures db.At(w) == if deferred then Returning(call) else Claimed(call, t)
    {
      deferred := now < NextOpen(campaign.zone(t), campaign.window, now);
      NextOpenOpens(campaign.zone(t), campaign.window, now);
      Commit(w, Claim(t, now), DoClaim(campaign, db, w, call, t, now), start, [Reserve(call)]);
    }

    /** `claim_next_target` and `_defer_outside_window`, one transaction: some due
        target, or none when the campaign does not run or none is due. */
    method ClaimNext(w: WorkerId, call: CallId, now: Instant, ghost start: seq<Action>)
      returns (target: Option<TargetId>, deferred: bool)
      requires Valid() && db.At(w) == Reserved(call) && Did(w, start, [Reserve(call)])
      modifies this
      ensures Valid()
      ensures Did(w, start, [Reserve(call)] + [if target.Some? then Claim(target.value, now) else ClaimNothing])
      ensures target.None? <==> old(db).status != Running || forall t :: t in old(db).rows ==> !old(db).Waiting(t, now)
      ensures target.Some? ==> old(db).Waiting(target.value, now) && target.value in db.rows
      ensures target.Some? ==> (deferred <==> now < NextOpen(campaign.zone(target.value), campaign.window, now))
      ensures target.Some? && deferred ==> PutOff(campaign, target.value, old(db).rows[target.value],
                                                  db.rows[target.value], now)
      ensures target.Some? && !deferred ==>
        && MayCallAt(campaign.zone(target.value), campaign.window, now)
        && TakenUp(old(db).rows[target.value], db.rows[target.value], now)
      ensures if target.Some? then OnlyRow(old(db), db, target.value) else db.rows == old(db).rows
      ensures db.At(w) == if target.Some? && !deferred then Claimed(call, target.value) else Returning(call)
    {
      if db.status == Running && exists t :: t in db.rows && db.Waiting(t, now) {
        var t :| t in db.rows && db.Waiting(t, now);
        target := Some(t);
        deferred := ClaimIt(w, call, t, now, start);
      } else {
        target, deferred := None, false;
        Commit(w, ClaimNothing, db.Go(w, Returning(call)), start, [Reserve(call)]);
      }
    }

    /** `begin_placing`, after the dial's own admission. */
    method TryBeginPlacing(w: WorkerId, call: CallId, t: TargetId, at: Instant,
                           ghost start: seq<Action>, ghost did: seq<WorkerMove>)
      returns (moved: bool)
      requires Valid() && db.At(w) == Claimed(call, t) && Did(w, start, did)
      modifies this
      ensures Valid() && Did(w, start, did + [BeginPlacing(at)])
      ensures moved <==> old(db).In(t, {Dialling}) && old(db).status == Running
      ensures db.At(w) == if moved then Asking(call, t) else NotDialled(call, t, LostClaim)
      ensures if moved then t in db.rows && BeingPlaced(old(db).rows[t], db.rows[t], at) && OnlyRow(old(db), db, t)
              else db.rows == old(db).rows
      ensures db.slots - {call} == old(db).slots - {call} && (call in db.slots <==> moved)
    {
      moved := db.In(t, {Dialling}) && db.status == Running;
      Commit(w, BeginPlacing(at), DoBeginPlacing(db, w, call, t, at), start, did);
    }

    /** `_not_dialled`: the target goes back, or is ended with why. */
    method HandTargetBack(w: WorkerId, call: CallId, t: TargetId, why: Why,
                          ghost start: seq<Action>, ghost did: seq<WorkerMove>)
      requires Valid() && db.At(w) == NotDialled(call, t, why) && Did(w, start, did)
      modifies this
      ensures Valid() && Did(w, start, did + [HandBack]) && db.At(w) == Returning(call)
      ensures !why.Refused? && old(db).In(t, OPEN) ==> db.In(t, {Pending, Placing, Calling})
      ensures why.Refused? ==> !db.In(t, AT_A_WORKER)
      ensures HandedBack(why, old(RowOf(db, t)), RowOf(db, t)) && OnlyRow(old(db), db, t)
    {
      Commit(w, HandBack, DoHandBack(db, t, why).Go(w, Returning(call)), start, did);
    }

    /** The carrier is asked; whether it placed the call. */
    method Ask(w: WorkerId, call: CallId, t: TargetId, placed: bool, ghost start: seq<Action>, ghost did: seq<WorkerMove>)
      requires Valid() && db.At(w) == Asking(call, t) && Did(w, start, did)
      modifies this
      ensures Valid() && Did(w, start, did + [AskCarrier(placed)]) && Asked(t, call) in db.log
      ensures if placed then Rang(call) in db.log && db.At(w) == Placed(call, t)
              else db.At(w) == NotDialled(call, t, Refused(false))
      ensures db.rows == old(db).rows
      ensures if placed then db.slots == old(db).slots && db.ringing == old(db).ringing + {call}
              else db.slots == old(db).slots - {call} && db.ringing == old(db).ringing
    {
      if placed {
        var mid := db.(ringing := db.ringing + {call}).Note(Asked(t, call)).Note(Rang(call));
        Commit(w, AskCarrier(true), mid.Go(w, Placed(call, t)), start, did);
      } else {
        var mid := db.(slots := db.slots - {call}).Note(Asked(t, call));
        Commit(w, AskCarrier(false), mid.Go(w, NotDialled(call, t, Refused(false))), start, did);
      }
    }

    /** `record_dial`, whose commit is heard to have worked or not. */
    method RecordIt(w: WorkerId, call: CallId, t: TargetId, fate: Fate, ghost start: seq<Action>, ghost did: seq<WorkerMove>)
      requires Valid() && db.At(w) == Placed(call, t) && fate.Possible() && Did(w, start, did)
      modifies this
      ensures Valid() && Did(w, start, did + [RecordDial(fate.wrote, fate.heard)]) && old(db.log) <= db.log
      ensures db.At(w) == if fate.heard then Idle else Unrecorded(call, t)
      ensures old(db).In(t, {Placing}) && fate.wrote ==> t in db.rows && OnTheCall(old(db).rows[t], db.rows[t], call)
      ensures if old(db).In(t, {Placing}) && fate.wrote then OnlyRow(old(db), db, t) else db.rows == old(db).rows
      ensures db.calls == if fate.wrote then old(db).calls[call := CallRow(t, DialNumber(old(db), t), None)]
                          else old(db).calls
    {
      var mid := if fate.wrote then DoRecord(db, call, t) else db;
      Commit(w, RecordDial(fate.wrote, fate.heard), mid.Go(w, if fate.heard then Idle else Unrecorded(call, t)), start, did);
    }

    /** `_not_recorded`: the target is ended, if that is saved. */
    method GiveUp(w: WorkerId, call: CallId, t: TargetId, saved: bool, ghost start: seq<Action>, ghost did: seq<WorkerMove>)
      requires Valid() && db.At(w) == Unrecorded(call, t) && Did(w, start, did)
      modifies this
      ensures Valid() && Did(w, start, did + [GiveUpRecording(saved)]) && db.At(w).Idle? && old(db.log) <= db.log
      ensures saved ==> !db.In(t, AT_A_WORKER)
      ensures if saved then HandedBack(Refused(false), old(RowOf(db, t)), RowOf(db, t)) && OnlyRow(old(db), db, t)
              else db.rows == old(db).rows
    {
      Commit(w, GiveUpRecording(saved), (if saved then DoFinish(db, t, Failed) else db).Go(w, Idle), start, did);
    }

    /** A placed call's record, with what the others do before the worker gives it up. */
    method Record(w: WorkerId, call: CallId, t: TargetId, fate: Fate, others: seq<Action>,
                  ghost start: seq<Action>, ghost did: seq<WorkerMove>)
      requires Valid() && db.At(w) == Placed(call, t) && fate.Possible() && Did(w, start, did)
      requires forall a :: a in others ==> NotOf(w, a)
      modifies this
      ensures Valid() && db.At(w).Idle? && old(db.log) <= db.log
      ensures
        var recorded := did + [RecordDial(fate.wrote, fate.heard)];
        Did(w, start, if fate.heard then recorded else recorded + [GiveUpRecording(fate.saved)])
      ensures fate.heard && old(db).In(t, {Placing}) ==> db.In(t, {Calling}) && db.rows[t].callId == Some(call)
      ensures !fate.heard && fate.saved ==> !db.In(t, AT_A_WORKER)
    {
      RecordIt(w, call, t, fate, start, did);
      if !fate.heard {
        Gapped(w, others, start, did + [RecordDial(fate.wrote, fate.heard)]);
        GiveUp(w, call, t, fate.saved, start, did + [RecordDial(fate.wrote, fate.heard)]);
      }
    }

    /** A claimed target up to the carrier's answer, or to what kept it from being asked. */
    method UpToTheCarrier(w: WorkerId, call: CallId, t: TargetId, now: Instant, placing: Instant, fate: Fate,
                          others: seq<Action>, ghost start: seq<Action>)
      returns (outcome: Outcome, why: Why)
      requires Valid() && db.At(w) == Claimed(call, t) && fate.Possible() && Did(w, start, Claims(call, t, now))
      requires forall a :: a in others ==> NotOf(w, a)
      modifies this
      ensures Valid() && Did(w, start, UpToAnswer(call, now, placing, fate, outcome))
      ensures outcome == if fate.refusal.Some? then TurnedAway(t, why)
                         else if outcome.Overtaken? then Overtaken(t)
                         else if fate.placed then CallPlaced(t) else NotPlaced(t)
      ensures fate.refusal.Some? ==> why == fate.refusal.value
      ensures if outcome.CallPlaced? then Rang(call) in db.log && db.At(w) == Placed(call, t)
              else db.At(w) == NotDialled(call, t, why)
    {
      if fate.refusal.Some? {
        why := fate.refusal.value;
        outcome := TurnedAway(t, why);
        var mid := db.(slots := if fate.freed then db.slots - {call} else db.slots);
        Commit(w, RefuseEarly(why, fate.freed), mid.Go(w, NotDialled(call, t, why)), start, Claims(call, t, now));
        return;
      }
      var moved := TryBeginPlacing(w, call, t, placing, start, Claims(call, t, now));
      if !moved {
        return Overtaken(t), LostClaim;
      }
      Gapped(w, others, start, Claims(call, t, now) + [BeginPlacing(placing)]);
      outcome, why := if fate.placed then CallPlaced(t) else NotPlaced(t), Refused(false);
      Ask(w, call, t, fate.placed, start, Claims(call, t, now) + [BeginPlacing(placing)]);
    }

    /** `_dial` from a claimed target on. */
    method Dial(w: WorkerId, call: CallId, t: TargetId, now: Instant, placing: Instant, fate: Fate,
                others: Gap -> seq<Action>, ghost start: seq<Action>)
      returns (outcome: Outcome)
      requires Valid() && db.At(w) == Claimed(call, t) && fate.Possible() && Did(w, start, Claims(call, t, now))
      requires ByOthers(w, others)
      modifies this
      ensures Valid() && Did(w, start, UpToRelease(call, now, placing, fate, outcome))
      ensures AsFated(fate, t, outcome)
      ensures if outcome.CallPlaced? then Rang(call) in db.log && db.At(w).Idle? else db.At(w) == Returning(call)
    {
      var why;
      outcome, why := UpToTheCarrier(w, call, t, now, placing, fate, others(AfterPlacing), start);
      Gapped(w, others(AfterTrying), start, UpToAnswer(call, now, placing, fate, outcome));
      if outcome.CallPlaced? {
        Record(w, call, t, fate, others(AfterRecording), start, UpToAnswer(call, now, placing, fate, outcome));
      } else {
        HandTargetBack(w, call, t, why, start, UpToAnswer(call, now, placing, fate, outcome));
      }
    }

    /** An admitted reservation up to its claim. */
    method ReserveAndClaim(w: WorkerId, call: CallId, now: Instant, others: Gap -> seq<Action>, ghost start: seq<Action>)
      returns (target: Option<TargetId>, deferred: bool)
      requires Valid() && db.At(w).Idle? && Took(call) !in db.log && Did(w, start, [])
      requires ByOthers(w, others)
      modifies this
      ensures Valid()
      ensures Did(w, start, [Reserve(call)] + [if target.Some? then Claim(target.value, now) else ClaimNothing])
      ensures db.At(w) == if target.Some? && !deferred then Claimed(call, target.value) else Returning(call)
    {
      ReserveDial(w, call, start);
      Gapped(w, others(AfterReserving), start, [Reserve(call)]);
      target, deferred := ClaimNext(w, call, now, start);
      Gapped(w, others(AfterClaiming), start,
             [Reserve(call)] + [if target.Some? then Claim(target.value, now) else ClaimNothing]);
    }

    /** `_dial_next`: which of a dial's outcomes it had, whatever the others do in each of
        its gaps; its steps are that outcome's, and an admitted reservation is given back
        by this worker, or is a placed call's exactly if it was placed. */
    method DialNext(w: WorkerId, call: CallId, now: Instant, placing: Instant, fate: Fate, others: Gap -> seq<Action>)
      returns (allowed: bool, outcome: Outcome)
      requires Valid() && db.At(w).Idle? && Took(call) !in db.log && fate.Possible() && ByOthers(w, others)
      modifies this
      ensures Valid() && db.At(w).Idle? && Did(w, old(ran), DialMoves(call, now, placing, fate, outcome))
      ensures outcome.NotAdmitted? <==> !fate.admitted
      ensures !fate.admitted ==> ran == old(ran)
      ensures allowed <==> !outcome.NotAdmitted? && !outcome.NoTarget?
      ensures !outcome.NotAdmitted? && !outcome.NoTarget? && !outcome.Deferred? ==> AsFated(fate, outcome.target, outcome)
      ensures fate.admitted ==> (Rang(call) in db.log <==> outcome.CallPlaced?)
      ensures fate.admitted ==> (Freed(call) in db.log <==> !outcome.CallPlaced?)
    {
      allowed, outcome := false, NotAdmitted;
      if fate.admitted {
        ghost var start := ran;
        var target, deferred := ReserveAndClaim(w, call, now, others, start);
        allowed := target.Some?;
        outcome := if target.None? then NoTarget else Deferred(target.value);
        if target.Some? && !deferred {
          outcome := Dial(w, call, target.value, now, placing, fate, others, start);
        }
        Finish(w, call, now, placing, fate, outcome, others(BeforeRelease), start);
      }
    }

    /** The release, unless a call was placed. */
    method Finish(w: WorkerId, call: CallId, now: Instant, placing: Instant, fate: Fate, outcome: Outcome,
                  others: seq<Action>, ghost start: seq<Action>)
      requires Valid() && !outcome.NotAdmitted? && Did(w, start, UpToRelease(call, now, placing, fate, outcome))
      requires if outcome.CallPlaced? then Rang(call) in db.log && db.At(w).Idle? else db.At(w) == Returning(call)
      requires forall a :: a in others ==> NotOf(w, a)
      modifies this
      ensures Valid() && db.At(w).Idle? && Did(w, start, DialMoves(call, now, placing, fate, outcome))
      ensures Rang(call) in db.log <==> outcome.CallPlaced?
      ensures Freed(call) in db.log <==> !outcome.CallPlaced?
    {
      Gapped(w, others, start, UpToRelease(call, now, placing, fate, outcome));
      if !outcome.CallPlaced? {
        ReleaseDial(w, call, start, UpToRelease(call, now, placing, fate, outcome));
      }
      FreedOrRang(campaign, began, ran, call);
    }

    // ----- settling

    /** `calling_targets` and their calls' endings: every calling target whose call has
        ended, each once. */
    method EndedCalls() returns (seen: seq<Ended>)
      ensures AllEnded(db, seen)
    {
      seen := [];
      var left := db.rows.Keys;
      while exists t :: t in left
        invariant left <= db.rows.Keys && EachOnce(seen)
        invariant forall e :: e in seen ==> ReadsWhatIsThere(db, e) && e.target !in left
        invariant forall t :: EndedHere(db, t) ==> t in left || Reads(seen, t)
        decreases |left|
      {
        var t :| t in left;
        left := left - {t};
        if EndedHere(db, t) {
          var call := db.rows[t].callId.value;
          OneReadMore(db, seen, Ended(t, call, db.calls[call].ended.value, db.rows[t].attempts));
          seen := seen + [Ended(t, call, db.calls[call].ended.value, db.rows[t].attempts)];
        }
      }
    }

    /** Of the endings read the first `n` are written and the rest as they were, but for
        the targets that the others have moved. */
    ghost predicate Progress(w: WorkerId, was: Sys, from: nat, seen: seq<Ended>, now: Instant, n: nat)
      reads this
    {
      forall j :: 0 <= j < |seen| ==>
        || Moved(w, from, seen[j].target)
        || (if j < n then SettledAs(campaign, RowOf(was, seen[j].target), RowOf(db, seen[j].target), seen[j], now)
            else RowOf(db, seen[j].target) == RowOf(was, seen[j].target))
    }

    method BetweenWrites(w: WorkerId, others: seq<Action>, ghost was: Sys, ghost from: nat, ghost seen: seq<Ended>,
                         now: Instant, ghost n: nat, ghost start: seq<Action>, ghost did: seq<WorkerMove>)
      requires Valid() && Did(w, start, did) && Progress(w, was, from, seen, now, n) && from <= |ran|
      requires forall a :: a in others ==> NotOf(w, a)
      modifies this
      ensures Valid() && Did(w, start, did) && Progress(w, was, from, seen, now, n) && db.At(w) == old(db.At(w))
      ensures old(ran) <= ran
    {
      ghost var before := ran;
      Meanwhile(w, others);
      forall j | 0 <= j < |seen| ensures
        (MovedByOthers(campaign, began, before, from, w, seen[j].target) ==> Moved(w, from, seen[j].target))
        && (Moved(w, |before|, seen[j].target) ==> Moved(w, from, seen[j].target))
      {
        StillMovedFrom(w, before, from, from, seen[j].target);
        StillMovedFrom(w, before, |before|, from, seen[j].target);
      }
    }

    /** The next ended call is settled. */
    method SettleNext(w: WorkerId, ghost was: Sys, ghost from: nat, seen: seq<Ended>, now: Instant, n: nat,
                      ghost start: seq<Action>)
      requires Valid() && n < |seen| && db.At(w) == Settling(seen[n..]) && EachOnce(seen) && from <= |ran|
      requires forall e :: e in seen ==> was.In(e.target, {Calling})
      requires Did(w, start, SettlingMoves(seen, now, n)) && Progress(w, was, from, seen, now, n)
      modifies this
      ensures Valid() && db.At(w) == Settling(seen[n + 1..]) && old(ran) <= ran
      ensures Did(w, start, SettlingMoves(seen, now, n + 1)) && Progress(w, was, from, seen, now, n + 1)
    {
      ghost var before, there := ran, db;
      assert seen[n..][1..] == seen[n + 1..];
      Commit(w, SettleOne(now), DoSettle(campaign, db, seen[n], now).Go(w, Settling(seen[n + 1..])), start,
             SettlingMoves(seen, now, n));
      forall j | 0 <= j < |seen| ensures
        (MovedByOthers(campaign, began, before, from, w, seen[j].target) ==> Moved(w, from, seen[j].target))
        && (j != n ==> RowOf(db, seen[j].target) == RowOf(there, seen[j].target))
      {
        StillMovedFrom(w, before, from, from, seen[j].target);
        if j != n {
          SettlesNoOther(campaign, there, seen[n], now, seen[j].target);
        }
      }
      if RowOf(there, seen[n].target) == RowOf(was, seen[n].target) {
        assert seen[n] in seen;
        SettlesIt(campaign, there, seen[n], now);
      }
    }

    method ReadTheEnded(w: WorkerId, seen: seq<Ended>, now: Instant, ghost start: seq<Action>)
      requires Valid() && db.At(w).Idle? && AllEnded(db, seen) && ran == start
      modifies this
      ensures Valid() && db.At(w) == Settling(seen) && Did(w, start, SettlingMoves(seen, now, 0))
      ensures Progress(w, old(db), |start|, seen, now, 0) && old(ran) <= ran
    {
      Commit(w, ReadEnded(seen), db.Go(w, Settling(seen)), start, []);
    }

    /** `_settle`: every ended call is read, and written, one by one, whatever the others
        do before each write and after the last; and each target that none of them moved is
        as its settling leaves it. */
    method Settle(w: WorkerId, now: Instant, others: nat -> seq<Action>) returns (seen: seq<Ended>)
      requires Valid() && db.At(w).Idle?
      requires forall n, a :: a in others(n) ==> NotOf(w, a)
      modifies this
      ensures Valid() && db.At(w).Idle? && AllEnded(old(db), seen)
      ensures Did(w, old(ran), SettlingMoves(seen, now, |seen| + 1))
      ensures forall e :: e in seen ==>
        Moved(w, |old(ran)|, e.target) || SettledAs(campaign, old(RowOf(db, e.target)), RowOf(db, e.target), e, now)
    {
      ghost var was, start := db, ran;
      seen := EndedCalls();
      ReadTheEnded(w, seen, now, start);
      for n := 0 to |seen|
        invariant Valid() && db.At(w) == Settling(seen[n..]) && |start| <= |ran|
        invariant Did(w, start, SettlingMoves(seen, now, n)) && Progress(w, was, |start|, seen, now, n)
      {
        BetweenWrites(w, others(n), was, |start|, seen, now, n, start, SettlingMoves(seen, now, n));
        SettleNext(w, was, |start|, seen, now, n, start);
      }
      BetweenWrites(w, others(|seen|), was, |start|, seen, now, |seen|, start, SettlingMoves(seen, now, |seen|));
      DoneSettling(w, was, |start|, seen, now, start);
    }

    method DoneSettling(w: WorkerId, ghost was: Sys, ghost from: nat, seen: seq<Ended>, now: Instant,
                        ghost start: seq<Action>)
      requires Valid() && db.At(w) == Settling([]) && from <= |ran|
      requires Did(w, start, SettlingMoves(seen, now, |seen|)) && Progress(w, was, from, seen, now, |seen|)
      modifies this
      ensures Valid() && db.At(w).Idle? && Did(w, start, SettlingMoves(seen, now, |seen| + 1))
      ensures Progress(w, was, from, seen, now, |seen|)
    {
      ghost var before := ran;
      Commit(w, SettleOne(now), db.Go(w, Idle), start, SettlingMoves(seen, now, |seen|));
      forall j | 0 <= j < |seen|
        ensures MovedByOthers(campaign, began, before, from, w, seen[j].target) ==> Moved(w, from, seen[j].target)
      {
        StillMovedFrom(w, before, from, from, seen[j].target);
      }
    }
  }

  /** A reservation given back or rung was taken, and is not both. */
  lemma FreedOrRang(c: Campaign, init: Sys, steps: seq<Action>, call: CallId)
    requires Fresh(init)
    requires Freed(call) in After(c, init, steps).log || Rang(call) in After(c, init, steps).log
    ensures
      var log := After(c, init, steps).log;
      Took(call) in log && !(Freed(call) in log && Rang(call) in log)
  {
    var log := After(c, init, steps).log;
    EveryRunLives(c, init, steps);
    var i :| 0 <= i < |log| && (log[i] == Rang(call) || log[i] == Freed(call));
    LastRanksHighest(c, log, i, |log|);
    assert log[..|log|] == log;
    LivesBeginByTaking(c, log, call);
    SettledIsLast(c, log, call);
  }
}
