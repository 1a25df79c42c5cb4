/**
 How often a target is dialled, and how soon again: the policy's largest number of
 attempts bounds every run, but for retries written from a stale read.
 */
module DialerBounds {
  import opened Options
  import opened Schedule
  import opened Dialer
  import opened DialerSafety
  import opened DialerRetries

  // ----- counting

  function AsksIn(e: Event, t: TargetId): nat {
    if e.Asked? && e.target == t then 1 else 0
  }

  function StalesIn(e: Event, t: TargetId): nat {
    if e.Retried? && e.target == t && e.stale then 1 else 0
  }

  /** How often the carrier was asked for a target. */
  function Asks(log: seq<Event>, t: TargetId): nat
    decreases |log|
  {
    if log == [] then 0 else Asks(log[..|log| - 1], t) + AsksIn(log[|log| - 1], t)
  }

  /** How often a target was retried from a read of an earlier call of its. */
  function Stales(log: seq<Event>, t: TargetId): nat
    decreases |log|
  {
    if log == [] then 0 else Stales(log[..|log| - 1], t) + StalesIn(log[|log| - 1], t)
  }

  lemma CountsAfter(log: seq<Event>, e: Event, t: TargetId)
    ensures Asks(log + [e], t) == Asks(log, t) + AsksIn(e, t)
    ensures Stales(log + [e], t) == Stales(log, t) + StalesIn(e, t)
  {
    assert (log + [e])[..|log|] == log;
  }

  /** No ending is dialled again after more than `m` dials. */
  predicate Covers(policy: map<string, Rule>, m: nat) {
    m >= 1 && forall reason :: reason in policy ==> policy[reason].maxAttempts <= m
  }

  // ----- the invariant, for one target

  predicate PlacingFor(pc: Pc, t: TargetId) {
    AtCarrier(pc) && pc.target == t
  }

  /** The asks are the attempts recorded, and one more while a placed call waits to be;
      a target that may still be asked for has not had its most. */
  ghost predicate Within(s: Sys, t: TargetId, m: nat) {
    var asks, most := Asks(s.log, t), m + Stales(s.log, t);
    && asks <= most
    && (s.In(t, {Pending, Dialling}) ==> asks == s.rows[t].attempts < most)
    && (s.In(t, {Calling}) ==> asks == s.rows[t].attempts)
    && (forall w: WorkerId :: PlacingFor(s.At(w), t) && s.At(w).Asking? ==> asks < most)
    && (forall w: WorkerId :: PlacingFor(s.At(w), t) && s.In(t, {Placing}) ==>
          asks == s.rows[t].attempts + if s.At(w).Placed? then 1 else 0)
  }

  lemma QuietCounts(log: seq<Event>, now: seq<Event>, t: TargetId)
    requires QuietLog(log, now)
    ensures Asks(now, t) == Asks(log, t) && Stales(now, t) == Stales(log, t)
  {
    if now != log {
      CountsAfter(log, now[|log|], t);
    }
  }

  lemma QuietKeepsWithin(s: Sys, now: Sys, t: TargetId, m: nat)
    requires Within(s, t, m) && Quiet(s, now)
    ensures Within(now, t, m)
  {
    QuietCounts(s.log, now.log, t);
    if t in s.rows {
      assert QuietRow(s.rows[t], now.rows[t]);
    }
    forall w: WorkerId | PlacingFor(now.At(w), t) ensures now.At(w) == s.At(w) {
    }
  }

  /** Nothing of target `t` moves. */
  ghost predicate Untouched(s: Sys, now: Sys, t: TargetId) {
    && (t in now.rows <==> t in s.rows) && (t in s.rows ==> now.rows[t] == s.rows[t])
    && Asks(now.log, t) == Asks(s.log, t) && Stales(now.log, t) == Stales(s.log, t)
    && forall w: WorkerId :: PlacingFor(now.At(w), t) ==> now.At(w) == s.At(w)
  }

  lemma UntouchedKeepsWithin(s: Sys, now: Sys, t: TargetId, m: nat)
    requires Within(s, t, m) && Untouched(s, now, t)
    ensures Within(now, t, m)
  {
    forall w: WorkerId | PlacingFor(now.At(w), t) ensures now.At(w) == s.At(w) {
    }
  }

  /** Only `w` moves, so only `w` can be at the carrier for `t` afterwards: `t` was with
      `w` there already, or with nobody. */
  lemma AloneAtCarrier(s: Sys, now: Sys, w: WorkerId, t: TargetId)
    requires OneAtCarrier(s) && (PlacingFor(s.At(w), t) || s.In(t, {Pending, Dialling, Calling}))
    requires forall v: WorkerId :: v != w ==> now.At(v) == s.At(v)
    ensures forall v: WorkerId :: PlacingFor(now.At(v), t) ==> v == w
  {
    forall v: WorkerId | PlacingFor(now.At(v), t) ensures v == w {
      assert v != w ==> PlacingFor(s.At(v), t);
    }
  }

  lemma BeginPlacingWithin(s: Sys, w: WorkerId, call: CallId, at: Instant, t: TargetId, m: nat)
    requires Within(s, t, m) && OneAtCarrier(s) && s.At(w) == Claimed(call, t)
    requires s.In(t, {Dialling}) && s.status == Running
    ensures Within(DoBeginPlacing(s, w, call, t, at), t, m)
  {
    CountsAfter(s.log, BeganPlacing(t, call), t);
    AloneAtCarrier(s, DoBeginPlacing(s, w, call, t, at), w, t);
  }

  lemma BeginPlacingElsewhere(s: Sys, w: WorkerId, call: CallId, x: TargetId, at: Instant, t: TargetId, m: nat)
    requires Within(s, t, m) && OneAtCarrier(s) && s.At(w) == Claimed(call, x)
    ensures Within(DoBeginPlacing(s, w, call, x, at), t, m)
  {
    if s.In(x, {Dialling}) && s.status == Running {
      if x == t {
        BeginPlacingWithin(s, w, call, at, t, m);
      } else {
        CountsAfter(s.log, BeganPlacing(x, call), t);
        UntouchedKeepsWithin(s, DoBeginPlacing(s, w, call, x, at), t, m);
      }
    } else {
      var mid := s.(slots := s.slots - {call}, lapsed := s.lapsed - {call});
      UntouchedKeepsWithin(s, mid.Go(w, NotDialled(call, x, LostClaim)), t, m);
    }
  }

  lemma AskCounts(log: seq<Event>, x: TargetId, call: CallId, t: TargetId)
    ensures Asks(log + [Asked(x, call)], t) == Asks(log, t) + if x == t then 1 else 0
    ensures Stales(log + [Asked(x, call)], t) == Stales(log, t)
    ensures Asks(log + [Asked(x, call)] + [Rang(call)], t) == Asks(log, t) + if x == t then 1 else 0
    ensures Stales(log + [Asked(x, call)] + [Rang(call)], t) == Stales(log, t)
  {
    CountsAfter(log, Asked(x, call), t);
    CountsAfter(log + [Asked(x, call)], Rang(call), t);
  }

  lemma AskHere(s: Sys, now: Sys, w: WorkerId, call: CallId, t: TargetId, m: nat)
    requires Within(s, t, m) && OneAtCarrier(s) && s.At(w) == Asking(call, t)
    requires now.rows == s.rows && !now.At(w).Asking? && (now.At(w).Placed? || !AtCarrier(now.At(w)))
    requires forall v: WorkerId :: v != w ==> now.At(v) == s.At(v)
    requires Asks(now.log, t) == Asks(s.log, t) + 1 && Stales(now.log, t) == Stales(s.log, t)
    ensures Within(now, t, m)
  {
    assert PlacingFor(s.At(w), t);
    AloneAtCarrier(s, now, w, t);
    assert s.In(t, PAST_THE_CLAIM);
  }

  lemma AskMoved(s: Sys, mid: Sys, w: WorkerId, call: CallId, x: TargetId, pc: Pc, t: TargetId, m: nat)
    requires Within(s, t, m) && OneAtCarrier(s) && s.At(w) == Asking(call, x)
    requires mid.rows == s.rows && mid.pcs == s.pcs && (pc == Placed(call, x) || !AtCarrier(pc))
    requires Asks(mid.log, t) == Asks(s.log, t) + (if x == t then 1 else 0) && Stales(mid.log, t) == Stales(s.log, t)
    ensures Within(mid.Go(w, pc), t, m)
  {
    if x == t {
      AskHere(s, mid.Go(w, pc), w, call, t, m);
    } else {
      UntouchedKeepsWithin(s, mid.Go(w, pc), t, m);
    }
  }

  lemma AskWithin(c: Campaign, s: Sys, w: WorkerId, call: CallId, x: TargetId, placed: bool, t: TargetId, m: nat)
    requires Within(s, t, m) && OneAtCarrier(s) && s.At(w) == Asking(call, x)
    ensures Within(WorkerDo(c, s, w, AskCarrier(placed)), t, m)
  {
    AskCounts(s.log, x, call, t);
    if placed {
      var mid := s.(ringing := s.ringing + {call}).Note(Asked(x, call)).Note(Rang(call));
      AskMoved(s, mid, w, call, x, Placed(call, x), t, m);
    } else {
      var mid := s.(slots := s.slots - {call}).Note(Asked(x, call));
      AskMoved(s, mid, w, call, x, NotDialled(call, x, Refused(false)), t, m);
    }
  }

  lemma RecordWithin(s: Sys, w: WorkerId, call: CallId, x: TargetId, wrote: bool, pc: Pc, t: TargetId, m: nat)
    requires Within(s, t, m) && OneAtCarrier(s) && s.At(w) == Placed(call, x) && !AtCarrier(pc)
    ensures Within((if wrote then DoRecord(s, call, x) else s).Go(w, pc), t, m)
  {
    var now := (if wrote then DoRecord(s, call, x) else s).Go(w, pc);
    if x == t {
      assert PlacingFor(s.At(w), t);
      AloneAtCarrier(s, now, w, t);
    } else {
      UntouchedKeepsWithin(s, now, t, m);
    }
  }

  lemma RetryHere(s: Sys, now: Sys, t: TargetId, m: nat)
    requires Within(s, t, m) && OneAtCarrier(s) && s.In(t, {Calling}) && now.pcs == s.pcs
    requires now.In(t, {Pending}) && now.rows[t].attempts == s.rows[t].attempts
    requires Asks(now.log, t) == Asks(s.log, t) && Stales(now.log, t) >= Stales(s.log, t)
    requires s.rows[t].attempts < m || Stales(now.log, t) == Stales(s.log, t) + 1
    ensures Within(now, t, m)
  {
    forall v: WorkerId ensures now.At(v) == s.At(v) {
    }
    AloneAtCarrier(s, now, 0, t);
    AloneAtCarrier(s, now, 1, t);
  }

  /** A retry that is not stale is of the target's own last dial, so within the rule. */
  lemma RetryWithin(c: Campaign, s: Sys, e: Ended, at: Instant, t: TargetId, m: nat)
    requires Within(s, t, m) && OneAtCarrier(s) && Evidence(c, s) && Covers(c.policy, m)
    requires Seen(s.calls, e) && s.In(e.target, {Calling})
    requires RetryAt(c.policy, e.reason, e.attempts, at, c.zone(e.target), c.window).Some?
    ensures Within(DoSettle(c, s, e, at), t, m)
  {
    var now := DoSettle(c, s, e, at);
    assert HasItsCall(s, e.target);
    CountsAfter(s.log, now.log[|s.log|], t);
    if e.target == t {
      RetryHere(s, now, t, m);
    } else {
      UntouchedKeepsWithin(s, now, t, m);
    }
  }

  lemma SettleWithin(c: Campaign, s: Sys, w: WorkerId, seen: seq<Ended>, at: Instant, t: TargetId, m: nat)
    requires Within(s, t, m) && OneAtCarrier(s) && Evidence(c, s) && Covers(c.policy, m)
    requires s.At(w) == Settling(seen) && seen != []
    ensures Within(DoSettle(c, s, seen[0], at).Go(w, Settling(seen[1..])), t, m)
  {
    var e := seen[0];
    var mid := DoSettle(c, s, e, at);
    assert PcEvidence(s.calls, s.At(w));
    if s.In(e.target, {Calling}) && RetryAt(c.policy, e.reason, e.attempts, at, c.zone(e.target), c.window).Some? {
      RetryWithin(c, s, e, at, t, m);
    } else {
      FinishIsQuiet(s, e.target, Completed);
      QuietKeepsWithin(s, mid, t, m);
    }
    GoIsQuiet(mid, mid, w, Settling(seen[1..]));
    QuietKeepsWithin(mid, mid.Go(w, Settling(seen[1..])), t, m);
  }

  lemma LoudWithin(c: Campaign, s: Sys, w: WorkerId, move: WorkerMove, t: TargetId, m: nat)
    requires Within(s, t, m) && OneAtCarrier(s) && Evidence(c, s) && Covers(c.policy, m) && Loud(move)
    ensures Within(WorkerDo(c, s, w, move), t, m)
  {
    match (s.At(w), move) {
      case (Claimed(call, x), BeginPlacing(at)) => BeginPlacingElsewhere(s, w, call, x, at, t, m);
      case (Asking(call, x), AskCarrier(placed)) => AskWithin(c, s, w, call, x, placed, t, m);
      case (Placed(call, x), RecordDial(wrote, heard)) =>
        RecordWithin(s, w, call, x, wrote, if heard then Idle else Unrecorded(call, x), t, m);
      case (Settling(seen), SettleOne(at)) =>
        if seen != [] {
          SettleWithin(c, s, w, seen, at, t, m);
        } else {
          GoIsQuiet(s, s, w, Idle);
          QuietKeepsWithin(s, s.Go(w, Idle), t, m);
        }
      case _ =>
    }
  }

  lemma {:induction false} EveryRunIsWithin(c: Campaign, init: Sys, steps: seq<Action>, t: TargetId, m: nat)
    requires Fresh(init) && Covers(c.policy, m)
    ensures Within(After(c, init, steps), t, m)
    decreases |steps|
  {
    if steps != [] {
      var before := steps[..|steps| - 1];
      var s := After(c, init, before);
      EveryRunIsWithin(c, init, before, t, m);
      EveryRunIsSafe(c, init, before);
      EveryRunHasEvidence(c, init, before);
      match steps[|steps| - 1] {
        case Worker(w, move) =>
          if Loud(move) {
            LoudWithin(c, s, w, move, t, m);
          } else {
            QuietWorker(c, s, w, move);
            QuietKeepsWithin(s, WorkerDo(c, s, w, move), t, m);
          }
        case Other(step) =>
          QuietOther(s, step);
          QuietKeepsWithin(s, OtherDo(s, step), t, m);
      }
    }
  }

  /** In every run the carrier is asked for a target at most as often as the largest
      number of attempts any rule allows, or once if none does, and once more for each
      retry of it that was written from a stale read. */
  lemma DialsAreBounded(c: Campaign, init: Sys, steps: seq<Action>, t: TargetId, m: nat)
    requires Fresh(init) && Covers(c.policy, m)
    ensures
      var log := After(c, init, steps).log;
      Asks(log, t) <= m + Stales(log, t)
  {
    EveryRunIsWithin(c, init, steps, t, m);
  }

  // ----- how soon again

  /** The last retry of a target, if it was ever retried. */
  function LastRetry(log: seq<Event>, t: TargetId): Option<Event>
    decreases |log|
  {
    if log == [] then None
    else
      var last := log[|log| - 1];
      if last.Retried? && last.target == t then Some(last) else LastRetry(log[..|log| - 1], t)
  }

  lemma LastRetryAfter(log: seq<Event>, e: Event, t: TargetId)
    ensures LastRetry(log + [e], t) == if e.Retried? && e.target == t then Some(e) else LastRetry(log, t)
  {
    assert (log + [e])[..|log|] == log;
  }

  /** The instant a target's last retry set, as a target that was never retried has none. */
  predicate NotBefore(last: Option<Event>, now: Option<Instant>) {
    last.Some? && last.value.Retried? ==> now.Some? && last.value.at <= now.value
  }

  ghost predicate InTime(log: seq<Event>) {
    forall i :: 0 <= i < |log| && log[i].ClaimedAt? ==>
      NotBefore(LastRetry(log[..i], log[i].target), Some(log[i].now))
  }

  /** A target is not due before its last retry's instant, and never was claimed before. */
  ghost predicate Spaced(s: Sys) {
    InTime(s.log) && forall t :: t in s.rows ==> NotBefore(LastRetry(s.log, t), s.rows[t].nextAttemptAt)
  }

  lemma OneMoreInTime(log: seq<Event>, e: Event)
    requires InTime(log)
    requires e.ClaimedAt? ==> NotBefore(LastRetry(log, e.target), Some(e.now))
    ensures InTime(log + [e])
  {
    var now := log + [e];
    forall i | 0 <= i < |now| && now[i].ClaimedAt?
      ensures NotBefore(LastRetry(now[..i], now[i].target), Some(now[i].now))
    {
      assert now[..i] == log[..i];
      assert log[..|log|] == log;
    }
  }

  /** The events of a step, but for a retry's, leave the last retries as they are. */
  lemma NoRetrySpaced(s: Sys, now: Sys)
    requires Spaced(s) && QuietRows(s.rows, now.rows) && QuietLog(s.log, now.log)
    requires now.log != s.log && now.log[|s.log|].ClaimedAt? ==>
      var e := now.log[|s.log|];
      e.target in s.rows && Due(s.rows[e.target], e.now)
    ensures Spaced(now)
  {
    if now.log != s.log {
      var e := now.log[|s.log|];
      OneMoreInTime(s.log, e);
      forall t ensures LastRetry(now.log, t) == LastRetry(s.log, t) {
        LastRetryAfter(s.log, e, t);
      }
    }
  }

  lemma ClaimsAreDue(c: Campaign, s: Sys, w: WorkerId, move: WorkerMove)
    requires !Loud(move)
    ensures
      var now := WorkerDo(c, s, w, move);
      now.log == s.log || (|now.log| == |s.log| + 1 &&
        (now.log[|s.log|].ClaimedAt? ==>
           var e := now.log[|s.log|];
           e.target in s.rows && Due(s.rows[e.target], e.now)))
  {
  }

  lemma AskSpaced(c: Campaign, s: Sys, w: WorkerId, call: CallId, x: TargetId, placed: bool)
    requires Spaced(s) && s.At(w) == Asking(call, x)
    ensures Spaced(WorkerDo(c, s, w, AskCarrier(placed)))
  {
    var log, asked := s.log, s.log + [Asked(x, call)];
    OneMoreInTime(log, Asked(x, call));
    OneMoreInTime(asked, Rang(call));
    forall t ensures LastRetry(asked, t) == LastRetry(log, t) == LastRetry(asked + [Rang(call)], t) {
      LastRetryAfter(log, Asked(x, call), t);
      LastRetryAfter(asked, Rang(call), t);
    }
  }

  lemma BeginPlacingSpaced(s: Sys, w: WorkerId, call: CallId, x: TargetId, at: Instant)
    requires Spaced(s) && s.At(w) == Claimed(call, x)
    ensures Spaced(DoBeginPlacing(s, w, call, x, at))
  {
    OneMoreInTime(s.log, BeganPlacing(x, call));
    forall t ensures LastRetry(s.log + [BeganPlacing(x, call)], t) == LastRetry(s.log, t) {
      LastRetryAfter(s.log, BeganPlacing(x, call), t);
    }
  }

  lemma RetrySpaced(c: Campaign, s: Sys, e: Ended, at: Instant)
    requires Spaced(s)
    ensures Spaced(DoSettle(c, s, e, at))
  {
    var now := DoSettle(c, s, e, at);
    if now.log != s.log {
      var said := now.log[|s.log|];
      OneMoreInTime(s.log, said);
      forall t ensures LastRetry(now.log, t) == if t == e.target then Some(said) else LastRetry(s.log, t) {
        LastRetryAfter(s.log, said, t);
      }
    }
  }

  lemma LoudSpaced(c: Campaign, s: Sys, w: WorkerId, move: WorkerMove)
    requires Spaced(s) && Loud(move)
    ensures Spaced(WorkerDo(c, s, w, move))
  {
    match (s.At(w), move) {
      case (Claimed(call, x), BeginPlacing(at)) => BeginPlacingSpaced(s, w, call, x, at);
      case (Asking(call, x), AskCarrier(placed)) => AskSpaced(c, s, w, call, x, placed);
      case (Placed(call, x), RecordDial(wrote, heard)) =>
      case (Settling(seen), SettleOne(at)) =>
        if seen != [] {
          RetrySpaced(c, s, seen[0], at);
        }
      case _ =>
    }
  }

  lemma {:induction false} EveryRunIsSpaced(c: Campaign, init: Sys, steps: seq<Action>)
    requires Fresh(init)
    ensures Spaced(After(c, init, steps))
    decreases |steps|
  {
    if steps != [] {
      var s := After(c, init, steps[..|steps| - 1]);
      EveryRunIsSpaced(c, init, steps[..|steps| - 1]);
      match steps[|steps| - 1] {
        case Worker(w, move) =>
          if Loud(move) {
            LoudSpaced(c, s, w, move);
          } else {
            QuietSpaced(c, s, w, move);
          }
        case Other(step) => OtherSpaced(s, step);
      }
    }
  }

  lemma QuietSpaced(c: Campaign, s: Sys, w: WorkerId, move: WorkerMove)
    requires Spaced(s) && !Loud(move)
    ensures Spaced(WorkerDo(c, s, w, move))
  {
    QuietWorker(c, s, w, move);
    ClaimsAreDue(c, s, w, move);
    NoRetrySpaced(s, WorkerDo(c, s, w, move));
  }

  lemma OtherSpaced(s: Sys, step: OtherMove)
    requires Spaced(s)
    ensures Spaced(OtherDo(s, step))
  {
    QuietOther(s, step);
    NoRetrySpaced(s, OtherDo(s, step));
  }

  lemma {:induction false} LastRetryBetween(log: seq<Event>, i: nat, j: nat)
    requires i < j <= |log| && log[i].Retried?
    requires forall k :: i < k < j && log[k].Retried? ==> log[k].target != log[i].target
    ensures LastRetry(log[..j], log[i].target) == Some(log[i])
    decreases j
  {
    assert log[..j] == log[..j - 1] + [log[j - 1]];
    LastRetryAfter(log[..j - 1], log[j - 1], log[i].target);
    if i + 1 < j {
      LastRetryBetween(log, i, j - 1);
    }
  }

  /** In every run, the claim after a retry comes no sooner than the instant the retry
      set: when the window opens after the rule's spacing from the settling. */
  lemma RetriedNoSooner(c: Campaign, init: Sys, steps: seq<Action>, i: nat, j: nat)
    requires Fresh(init)
    requires
      var log := After(c, init, steps).log;
      && i < j < |log| && log[i].Retried? && log[j].ClaimedAt? && log[j].target == log[i].target
      && forall k :: i < k < j && log[k].Retried? ==> log[k].target != log[i].target
    ensures
      var s := After(c, init, steps);
      && Justified(c, s.calls, s.log[i])
      && s.log[i].seen + c.policy[s.log[i].reason].spacing <= s.log[i].at <= s.log[j].now
  {
    var s := After(c, init, steps);
    EveryRunIsSpaced(c, init, steps);
    EveryRunHasEvidence(c, init, steps);
    LastRetryBetween(s.log, i, j);
    assert s.log[i] in s.log;
    NowIsInWindow(c.zone(s.log[i].target), c.window, s.log[i].seen + c.policy[s.log[i].reason].spacing);
  }
}
