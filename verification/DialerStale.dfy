/**
 When the policy bounds the dials: exactly when no rule dials a second time. Two
 workers that read one ended call may settle it at different times; the later write
 finds the target calling, and sends it back to pending while a further call rings.
 */
module DialerStale {
  import opened Options
  import opened Schedule
  import opened Dialer
  import opened DialerSafety
  import opened DialerRetries
  import opened DialerBounds

  // ----- a policy that dials nobody twice

  predicate NeverAgain(policy: map<string, Rule>) {
    forall reason :: reason in policy ==> policy[reason].maxAttempts <= 1
  }

  lemma {:induction false} NoneStale(log: seq<Event>, t: TargetId)
    requires forall e :: e in log ==> !e.Retried?
    ensures Stales(log, t) == 0
    decreases |log|
  {
    if log != [] {
      assert log[|log| - 1] in log;
      NoneStale(log[..|log| - 1], t);
    }
  }

  lemma JustifiedNeedsTwo(c: Campaign, calls: map<CallId, CallRow>, e: Event)
    ensures e.Retried? && Justified(c, calls, e) ==> !NeverAgain(c.policy)
  {
  }

  /** Then every target is asked for once at most, over every run. */
  lemma OnceUnderNeverAgain(c: Campaign, init: Sys, steps: seq<Action>, t: TargetId)
    requires Fresh(init) && NeverAgain(c.policy)
    ensures Asks(After(c, init, steps).log, t) <= 1
  {
    var s := After(c, init, steps);
    EveryRunHasEvidence(c, init, steps);
    forall e | e in s.log ensures !e.Retried? {
      JustifiedNeedsTwo(c, s.calls, e);
    }
    NoneStale(s.log, t);
    DialsAreBounded(c, init, steps, t, 1);
  }

  // ----- the clock of a run

  function InstantOf(a: Action): Option<Instant> {
    match a
    case Worker(_, Claim(_, now)) => Some(now)
    case Worker(_, BeginPlacing(now)) => Some(now)
    case Worker(_, SettleOne(now)) => Some(now)
    case Other(Reclaim(_, now, _)) => Some(now)
    case _ => None
  }

  /** The clocks that the run's processes read never go back. */
  ghost predicate ClockGoesOn(steps: seq<Action>) {
    forall i, j :: 0 <= i < j < |steps| && InstantOf(steps[i]).Some? && InstantOf(steps[j]).Some? ==>
      InstantOf(steps[i]).value <= InstantOf(steps[j]).value
  }

  ghost predicate Clocked(steps: seq<Action>, lo: Instant, hi: Instant) {
    && lo <= hi && ClockGoesOn(steps)
    && forall i :: 0 <= i < |steps| && InstantOf(steps[i]).Some? ==> lo <= InstantOf(steps[i]).value <= hi
  }

  lemma ClockedBoth(a: seq<Action>, b: seq<Action>, lo: Instant, mid: Instant, hi: Instant)
    requires Clocked(a, lo, mid) && Clocked(b, mid, hi)
    ensures Clocked(a + b, lo, hi)
  {
    forall i | 0 <= i < |a + b| && InstantOf((a + b)[i]).Some?
      ensures if i < |a| then lo <= InstantOf((a + b)[i]).value <= mid else mid <= InstantOf((a + b)[i]).value <= hi
    {
      if i >= |a| {
        assert (a + b)[i] == b[i - |a|];
      }
    }
    forall i, j | 0 <= i < j < |a + b| && InstantOf((a + b)[i]).Some? && InstantOf((a + b)[j]).Some?
      ensures InstantOf((a + b)[i]).value <= InstantOf((a + b)[j]).value
    {
      if j < |a| {
        assert (a + b)[i] == a[i] && (a + b)[j] == a[j];
      } else if i >= |a| {
        assert (a + b)[i] == b[i - |a|] && (a + b)[j] == b[j - |a|];
      }
    }
  }

  /** The target's window is open at instants as late as one likes, or there is none. */
  ghost predicate OpensLate(c: Campaign, t: TargetId) {
    c.window.Some? ==> forall x: Instant :: OpensFrom(c.zone(t), c.window.value, x)
  }

  ghost predicate OpensFrom(z: Zone, w: CallingWindow, x: Instant) {
    exists y :: x <= y && InWindow(z, w, y)
  }

  lemma OpenLater(c: Campaign, t: TargetId, x: Instant) returns (y: Instant)
    requires OpensLate(c, t)
    ensures x <= y && NextOpen(c.zone(t), c.window, y) == y
  {
    if c.window.None? {
      y := x;
    } else {
      assert OpensFrom(c.zone(t), c.window.value, x);
      y :| x <= y && InWindow(c.zone(t), c.window.value, y);
      OpenNowIsNow(c.zone(t), c.window.value, y);
    }
  }

  // ----- one dial, by worker 1

  /** Call ids are the numbers of the dials, and worker 1 is free. */
  ghost predicate Numbered(s: Sys, t: TargetId, dials: nat) {
    && s.status == Running && s.At(1).Idle? && t in s.rows && s.rows[t].attempts == dials
    && Asks(s.log, t) == dials && forall x: CallId :: x > dials ==> Took(x) !in s.log
  }

  /** The target waits, due at `x`. */
  ghost predicate Waits(s: Sys, t: TargetId, dials: nat, x: Instant) {
    Numbered(s, t, dials) && s.rows[t].status == Pending && Due(s.rows[t], x)
  }

  /** Its latest call rings, and is recorded. */
  ghost predicate Rings(s: Sys, t: TargetId, dials: nat) {
    && Numbered(s, t, dials) && s.rows[t].status == Calling && s.rows[t].callId == Some(dials)
    && dials in s.calls && s.calls[dials] == CallRow(t, dials, None) && dials in s.ringing
  }

  const W := 1

  /** On its way to the carrier for the next dial. */
  ghost predicate Going(s: Sys, t: TargetId, dials: nat) {
    && s.status == Running && t in s.rows && s.rows[t].attempts == dials && Asks(s.log, t) == dials
    && forall y: CallId :: y > dials + 1 ==> Took(y) !in s.log
  }

  ghost predicate NoCallMoves(s: Sys, now: Sys) {
    now.calls == s.calls && now.ringing == s.ringing && now.At(2) == s.At(2)
  }

  lemma Reserving(c: Campaign, s: Sys, t: TargetId, dials: nat, x: Instant) returns (now: Sys)
    requires Waits(s, t, dials, x)
    ensures now == Do(c, s, Worker(W, Reserve(dials + 1)))
    ensures Going(now, t, dials) && NoCallMoves(s, now)
    ensures now.At(W) == Reserved(dials + 1) && now.rows == s.rows
  {
    now := s.(slots := s.slots + {dials + 1}).Note(Took(dials + 1)).Go(W, Reserved(dials + 1));
    assert Do(c, s, Worker(W, Reserve(dials + 1))) == now;
    CountsAfter(s.log, Took(dials + 1), t);
  }

  lemma Claiming(c: Campaign, s: Sys, t: TargetId, dials: nat, x: Instant) returns (now: Sys)
    requires s.At(W) == Reserved(dials + 1) && Going(s, t, dials) && s.In(t, {Pending}) && Due(s.rows[t], x)
    requires NextOpen(c.zone(t), c.window, x) == x
    ensures now == Do(c, s, Worker(W, Claim(t, x)))
    ensures Going(now, t, dials) && NoCallMoves(s, now)
    ensures now.At(W) == Claimed(dials + 1, t) && now.In(t, {Dialling})
  {
    now := DoClaim(c, s, W, dials + 1, t, x);
    assert Do(c, s, Worker(W, Claim(t, x))) == now;
    CountsAfter(s.log, ClaimedAt(t, dials + 1, x), t);
  }

  lemma BeginningToPlace(c: Campaign, s: Sys, t: TargetId, dials: nat, x: Instant) returns (now: Sys)
    requires s.At(W) == Claimed(dials + 1, t) && Going(s, t, dials) && s.In(t, {Dialling})
    ensures now == Do(c, s, Worker(W, BeginPlacing(x)))
    ensures Going(now, t, dials) && NoCallMoves(s, now)
    ensures now.At(W) == Asking(dials + 1, t) && now.In(t, {Placing})
  {
    now := DoBeginPlacing(s, W, dials + 1, t, x);
    assert Do(c, s, Worker(W, BeginPlacing(x))) == now;
    CountsAfter(s.log, BeganPlacing(t, dials + 1), t);
  }

  lemma Answering(c: Campaign, s: Sys, call: CallId, t: TargetId) returns (now: Sys)
    requires s.At(W) == Asking(call, t)
    ensures now == Do(c, s, Worker(W, AskCarrier(true)))
    ensures now == s.(ringing := s.ringing + {call}, pcs := s.pcs[W := Placed(call, t)],
                      log := s.log + [Asked(t, call)] + [Rang(call)])
    ensures Asks(now.log, t) == Asks(s.log, t) + 1
  {
    now := Do(c, s, Worker(W, AskCarrier(true)));
    AskCounts(s.log, t, call, t);
  }

  lemma Recording(c: Campaign, s: Sys, call: CallId, t: TargetId) returns (now: Sys)
    requires s.At(W) == Placed(call, t) && s.In(t, {Placing})
    ensures now == Do(c, s, Worker(W, RecordDial(true, true)))
    ensures now == s.(rows := now.rows, pcs := s.pcs[W := Idle],
                      calls := s.calls[call := CallRow(t, s.rows[t].attempts + 1, None)])
    ensures now.In(t, {Calling}) && now.rows[t].attempts == s.rows[t].attempts + 1
    ensures now.rows[t].callId == Some(call)
  {
    now := Do(c, s, Worker(W, RecordDial(true, true)));
  }

  function ToTheCarrier(t: TargetId, call: CallId, x: Instant): seq<Action> {
    [Worker(W, Reserve(call)), Worker(W, Claim(t, x)), Worker(W, BeginPlacing(x))]
  }

  function FromTheCarrier(): seq<Action> {
    [Worker(W, AskCarrier(true)), Worker(W, RecordDial(true, true))]
  }

  /** What a dial leaves as it was. */
  ghost predicate Besides(s: Sys, now: Sys, call: CallId) {
    && now.At(2) == s.At(2) && s.ringing <= now.ringing
    && forall x: CallId :: x != call && x in s.calls ==> x in now.calls && now.calls[x] == s.calls[x]
  }

  lemma GoingToTheCarrier(c: Campaign, s: Sys, t: TargetId, dials: nat, x: Instant) returns (now: Sys)
    requires Waits(s, t, dials, x) && NextOpen(c.zone(t), c.window, x) == x
    ensures now == After(c, s, ToTheCarrier(t, dials + 1, x))
    ensures Going(now, t, dials) && NoCallMoves(s, now) && now.At(W) == Asking(dials + 1, t) && now.In(t, {Placing})
  {
    AfterThree(c, s, Worker(W, Reserve(dials + 1)), Worker(W, Claim(t, x)), Worker(W, BeginPlacing(x)));
    var s1 := Reserving(c, s, t, dials, x);
    var s2 := Claiming(c, s1, t, dials, x);
    now := BeginningToPlace(c, s2, t, dials, x);
  }

  lemma ComingFromTheCarrier(c: Campaign, s: Sys, t: TargetId, dials: nat) returns (now: Sys)
    requires Going(s, t, dials) && s.At(W) == Asking(dials + 1, t) && s.In(t, {Placing})
    ensures now == After(c, s, FromTheCarrier()) && Rings(now, t, dials + 1) && Besides(s, now, dials + 1)
  {
    AfterTwo(c, s, Worker(W, AskCarrier(true)), Worker(W, RecordDial(true, true)));
    var s1 := Answering(c, s, dials + 1, t);
    now := Recording(c, s1, dials + 1, t);
  }

  function Dial(t: TargetId, call: CallId, x: Instant): seq<Action> {
    ToTheCarrier(t, call, x) + FromTheCarrier()
  }

  lemma DialClocked(t: TargetId, call: CallId, x: Instant)
    ensures Clocked(Dial(t, call, x), x, x)
  {
    assert Clocked(ToTheCarrier(t, call, x), x, x);
    assert Clocked(FromTheCarrier(), x, x);
    ClockedBoth(ToTheCarrier(t, call, x), FromTheCarrier(), x, x, x);
  }

  lemma DialRings(c: Campaign, s: Sys, t: TargetId, dials: nat, x: Instant) returns (now: Sys)
    requires Waits(s, t, dials, x) && NextOpen(c.zone(t), c.window, x) == x
    ensures now == After(c, s, Dial(t, dials + 1, x)) && Clocked(Dial(t, dials + 1, x), x, x)
    ensures Rings(now, t, dials + 1) && Besides(s, now, dials + 1)
  {
    var mid := GoingToTheCarrier(c, s, t, dials, x);
    now := ComingFromTheCarrier(c, mid, t, dials);
    AfterAll(c, s, ToTheCarrier(t, dials + 1, x), FromTheCarrier());
    DialClocked(t, dials + 1, x);
  }

  // ----- its ending, read and settled

  function Ending(t: TargetId, dials: nat, reason: string): Ended {
    Ended(t, dials, reason, dials)
  }

  lemma Ends(c: Campaign, s: Sys, t: TargetId, dials: nat, reason: string) returns (now: Sys)
    requires Rings(s, t, dials)
    ensures now == Do(c, s, Other(EndCall(dials, reason)))
    ensures now == s.(ringing := now.ringing, slots := now.slots, calls := now.calls)
    ensures ReadsWhatIsThere(now, Ending(t, dials, reason))
  {
    now := Do(c, s, Other(EndCall(dials, reason)));
  }

  lemma Reads(c: Campaign, s: Sys, w: WorkerId, e: Ended) returns (now: Sys)
    requires s.At(w).Idle? && ReadsWhatIsThere(s, e)
    ensures now == Do(c, s, Worker(w, ReadEnded([e])))
    ensures now == s.(pcs := s.pcs[w := Settling([e])])
  {
    now := Do(c, s, Worker(w, ReadEnded([e])));
  }

  lemma RetriesAt(c: Campaign, e: Ended, x: Instant) returns (at: Instant)
    requires e.reason in c.policy && e.attempts < c.policy[e.reason].maxAttempts
    ensures RetryAt(c.policy, e.reason, e.attempts, x, c.zone(e.target), c.window) == Some(at)
  {
    at := NextOpen(c.zone(e.target), c.window, x + c.policy[e.reason].spacing);
  }

  /** The target goes back to pending on whichever ending was read. */
  lemma WritesBack(c: Campaign, s: Sys, e: Ended, x: Instant, at: Instant) returns (now: Sys)
    requires s.In(e.target, {Calling})
    requires RetryAt(c.policy, e.reason, e.attempts, x, c.zone(e.target), c.window) == Some(at)
    ensures now == DoSettle(c, s, e, x) && now == s.(rows := now.rows, log := now.log)
    ensures now.rows == s.rows[e.target := s.rows[e.target].(status := Pending, nextAttemptAt := Some(at))]
    ensures Asks(now.log, e.target) == Asks(s.log, e.target)
    ensures forall y: CallId :: Took(y) in now.log <==> Took(y) in s.log
  {
    var row := s.rows[e.target];
    var said := Retried(e.target, e.call, e.reason, x, at, row.callId != Some(e.call));
    now := s.Put(e.target, row.(status := Pending, nextAttemptAt := Some(at))).Note(said);
    CountsAfter(s.log, said, e.target);
  }

  lemma Settles(c: Campaign, s: Sys, w: WorkerId, e: Ended, x: Instant) returns (now: Sys, at: Instant)
    requires s.At(w) == Settling([e]) && s.In(e.target, {Calling})
    requires e.reason in c.policy && e.attempts < c.policy[e.reason].maxAttempts
    ensures now == Do(c, s, Worker(w, SettleOne(x)))
    ensures now == s.(rows := now.rows, pcs := s.pcs[w := Settling([])], log := now.log)
    ensures now.rows == s.rows[e.target := s.rows[e.target].(status := Pending, nextAttemptAt := Some(at))]
    ensures Asks(now.log, e.target) == Asks(s.log, e.target)
    ensures forall y: CallId :: Took(y) in now.log <==> Took(y) in s.log
  {
    at := RetriesAt(c, e, x);
    var mid := WritesBack(c, s, e, x, at);
    assert [e][1..] == [];
    now := mid.Go(w, Settling([]));
  }

  function TwoWrites(x: Instant): seq<Action> {
    [Worker(W, SettleOne(x)), Worker(W, SettleOne(x))]
  }

  /** Worker 1 settles its own read, and is free. */
  lemma SettlesOwn(c: Campaign, s: Sys, t: TargetId, dials: nat, e: Ended, x: Instant) returns (now: Sys, at: Instant)
    requires s.status == Running && s.At(W) == Settling([e]) && e.target == t && s.In(t, {Calling})
    requires e.reason in c.policy && e.attempts < c.policy[e.reason].maxAttempts
    requires s.rows[t].attempts == dials && Asks(s.log, t) == dials
    requires forall y: CallId :: y > dials ==> Took(y) !in s.log
    ensures now == After(c, s, TwoWrites(x)) && Clocked(TwoWrites(x), x, x)
    ensures Waits(now, t, dials, at) && now.At(2) == s.At(2)
  {
    AfterTwo(c, s, Worker(W, SettleOne(x)), Worker(W, SettleOne(x)));
    var s1;
    s1, at := Settles(c, s, W, e, x);
    now := s1.Go(W, Idle);
  }

  /** Worker 1 settles what it read, and dials again as soon as it may. */
  lemma DialsAgain(c: Campaign, s: Sys, t: TargetId, dials: nat, e: Ended, x: Instant)
    returns (now: Sys, steps: seq<Action>, y: Instant)
    requires OpensLate(c, t) && s.status == Running && s.At(W) == Settling([e]) && e.target == t && s.In(t, {Calling})
    requires e.reason in c.policy && e.attempts < c.policy[e.reason].maxAttempts
    requires s.rows[t].attempts == dials && Asks(s.log, t) == dials
    requires forall y: CallId :: y > dials ==> Took(y) !in s.log
    ensures now == After(c, s, steps) && Clocked(steps, x, y)
    ensures Rings(now, t, dials + 1) && now.At(2) == s.At(2)
  {
    var mid, at := SettlesOwn(c, s, t, dials, e, x);
    y := OpenLater(c, t, if x <= at then at else x);
    now := DialRings(c, mid, t, dials, y);
    AfterAll(c, s, TwoWrites(x), Dial(t, dials + 1, y));
    assert Clocked(TwoWrites(x), x, y);
    ClockedBoth(TwoWrites(x), Dial(t, dials + 1, y), x, y, y);
    steps := TwoWrites(x) + Dial(t, dials + 1, y);
  }

  /** The call ends; worker 1 reads and settles it, in time; the target is dialled again. */
  lemma OneDialMore(c: Campaign, s: Sys, t: TargetId, dials: nat, reason: string, x: Instant)
    returns (now: Sys, steps: seq<Action>, y: Instant)
    requires Rings(s, t, dials) && OpensLate(c, t)
    requires reason in c.policy && dials < c.policy[reason].maxAttempts
    ensures now == After(c, s, steps) && Clocked(steps, x, y)
    ensures Rings(now, t, dials + 1) && now.At(2) == s.At(2)
  {
    var e := Ending(t, dials, reason);
    var read := [Other(EndCall(dials, reason)), Worker(W, ReadEnded([e]))];
    AfterTwo(c, s, Other(EndCall(dials, reason)), Worker(W, ReadEnded([e])));
    var s1 := Ends(c, s, t, dials, reason);
    var s2 := Reads(c, s1, W, e);
    var rest;
    now, rest, y := DialsAgain(c, s2, t, dials, e, x);
    AfterAll(c, s, read, rest);
    ClockedBoth(read, rest, x, x, y);
    steps := read + rest;
  }

  /** So on, up to the rule's number of attempts. */
  lemma {:induction false} DialsUpTo(c: Campaign, s: Sys, t: TargetId, dials: nat, reason: string, m: nat, x: Instant)
    returns (now: Sys, steps: seq<Action>, y: Instant)
    requires Rings(s, t, dials) && OpensLate(c, t) && dials <= m
    requires reason in c.policy && c.policy[reason].maxAttempts == m
    ensures now == After(c, s, steps) && Clocked(steps, x, y)
    ensures Rings(now, t, m) && now.At(2) == s.At(2)
    decreases m - dials
  {
    if dials == m {
      now, steps, y := s, [], x;
    } else {
      var mid, first, z := OneDialMore(c, s, t, dials, reason, x);
      var rest;
      now, rest, y := DialsUpTo(c, mid, t, dials + 1, reason, m, z);
      AfterAll(c, s, first, rest);
      ClockedBoth(first, rest, x, z, y);
      steps := first + rest;
    }
  }

  // ----- a run with one dial too many

  function Start(t: TargetId): Sys {
    Sys(Queued, false, map[t := Row(Pending, 0, None, None, None)], map[], map[], {}, {}, {}, {}, [])
  }

  lemma FirstDial(c: Campaign, t: TargetId) returns (now: Sys, steps: seq<Action>, x: Instant)
    requires OpensLate(c, t)
    ensures Fresh(Start(t)) && now == After(c, Start(t), steps) && Clocked(steps, x, x)
    ensures Rings(now, t, 1) && now.At(2).Idle?
  {
    var begin := Other(StartCampaign);
    var s := Do(c, Start(t), begin);
    AfterOne(c, Start(t), begin);
    x := OpenLater(c, t, 0);
    now := DialRings(c, s, t, 0, x);
    AfterAll(c, Start(t), [begin], Dial(t, 1, x));
    ClockedBoth([begin], Dial(t, 1, x), x, x, x);
    steps := [begin] + Dial(t, 1, x);
  }

  /** The first call ends; both workers read it, and worker 1 settles it and dials again. */
  lemma SecondDial(c: Campaign, s: Sys, t: TargetId, reason: string, x: Instant)
    returns (now: Sys, steps: seq<Action>, y: Instant)
    requires Rings(s, t, 1) && s.At(2).Idle? && OpensLate(c, t)
    requires reason in c.policy && c.policy[reason].maxAttempts >= 2
    ensures now == After(c, s, steps) && Clocked(steps, x, y)
    ensures Rings(now, t, 2) && now.At(2) == Settling([Ending(t, 1, reason)])
  {
    var e := Ending(t, 1, reason);
    var read := [Other(EndCall(1, reason)), Worker(2, ReadEnded([e])), Worker(W, ReadEnded([e]))];
    AfterThree(c, s, Other(EndCall(1, reason)), Worker(2, ReadEnded([e])), Worker(W, ReadEnded([e])));
    var s1 := Ends(c, s, t, 1, reason);
    var s2 := Reads(c, s1, 2, e);
    var s3 := Reads(c, s2, W, e);
    var rest;
    now, rest, y := DialsAgain(c, s3, t, 1, e, x);
    AfterAll(c, s, read, rest);
    ClockedBoth(read, rest, x, x, y);
    steps := read + rest;
  }

  /** The late write: worker 2 sends the target back while its latest call rings, and it
      is dialled once more. */
  lemma LateWrite(c: Campaign, s: Sys, t: TargetId, m: nat, e: Ended, x: Instant)
    returns (now: Sys, steps: seq<Action>, y: Instant)
    requires Rings(s, t, m) && s.At(2) == Settling([e]) && OpensLate(c, t)
    requires e.target == t && e.reason in c.policy && e.attempts < c.policy[e.reason].maxAttempts
    ensures now == After(c, s, steps) && Clocked(steps, x, y)
    ensures Asks(now.log, t) == m + 1 && m in now.ringing && m in now.calls && now.calls[m] == CallRow(t, m, None)
  {
    var write := [Worker(2, SettleOne(x))];
    AfterOne(c, s, Worker(2, SettleOne(x)));
    var s1, at := Settles(c, s, 2, e, x);
    y := OpenLater(c, t, if x <= at then at else x);
    now := DialRings(c, s1, t, m, y);
    AfterAll(c, s, write, Dial(t, m + 1, y));
    assert Clocked(write, x, y);
    ClockedBoth(write, Dial(t, m + 1, y), x, y, y);
    steps := write + Dial(t, m + 1, y);
  }

  /** Whatever the rule that dials a second time, some run whose clocks never go back asks
      the carrier once more often than the rule's attempts, while the last of the calls it
      allows, recorded and not ended, still rings. */
  lemma OneDialTooMany(c: Campaign, t: TargetId, reason: string) returns (steps: seq<Action>)
    requires OpensLate(c, t) && reason in c.policy && c.policy[reason].maxAttempts >= 2
    ensures Fresh(Start(t)) && ClockGoesOn(steps)
    ensures
      var s, m: nat := After(c, Start(t), steps), c.policy[reason].maxAttempts;
      Asks(s.log, t) == m + 1 && m in s.ringing && m in s.calls && s.calls[m] == CallRow(t, m, None)
  {
    var m: nat := c.policy[reason].maxAttempts;
    var s1, a, x1 := FirstDial(c, t);
    var s2, b, x2 := SecondDial(c, s1, t, reason, x1);
    var s3, d, x3 := DialsUpTo(c, s2, t, 2, reason, m, x2);
    var s4, e, x4 := LateWrite(c, s3, t, m, Ending(t, 1, reason), x3);
    AfterAll(c, Start(t), a, b);
    AfterAll(c, Start(t), a + b, d);
    AfterAll(c, Start(t), a + b + d, e);
    ClockedBoth(a, b, x1, x1, x2);
    ClockedBoth(a + b, d, x1, x2, x3);
    ClockedBoth(a + b + d, e, x1, x3, x4);
    steps := a + b + d + e;
  }

  // ----- the exact condition

  /** The largest number of attempts a rule allows, and one if none allows any. */
  predicate Most(policy: map<string, Rule>, m: nat) {
    Covers(policy, m) && (m == 1 || exists reason :: reason in policy && policy[reason].maxAttempts == m)
  }

  ghost predicate BoundedBy(c: Campaign, t: TargetId, m: nat) {
    forall init, steps :: Fresh(init) ==> Asks(After(c, init, steps).log, t) <= m
  }

  ghost predicate BoundedInTime(c: Campaign, t: TargetId, m: nat) {
    forall init, steps :: Fresh(init) && ClockGoesOn(steps) ==> Asks(After(c, init, steps).log, t) <= m
  }

  /** Every run asks for the target at most max(1, the largest number of attempts) times
      exactly when no rule dials a second time; and so does every run whose clocks never
      go back. */
  lemma BoundedIffNeverAgain(c: Campaign, t: TargetId, m: nat)
    requires OpensLate(c, t) && Most(c.policy, m)
    ensures BoundedBy(c, t, m) <==> NeverAgain(c.policy)
    ensures BoundedInTime(c, t, m) <==> NeverAgain(c.policy)
  {
    if NeverAgain(c.policy) {
      forall init, steps | Fresh(init) ensures Asks(After(c, init, steps).log, t) <= m {
        OnceUnderNeverAgain(c, init, steps, t);
      }
    } else {
      var reason :| reason in c.policy && c.policy[reason].maxAttempts == m;
      var steps := OneDialTooMany(c, t, reason);
      assert Asks(After(c, Start(t), steps).log, t) > m;
    }
  }

  // ----- one campaign

  const MINUTE := 60_000_000

  function AlwaysUtc(t: TargetId): Zone {
    UTC
  }

  const TWICE := Campaign(map["customer_did_not_answer" := Rule(2, MINUTE)], None, AlwaysUtc)

  /** A campaign of two attempts a minute apart, and a run of it in which the carrier is
      asked three times for a target, the third time while its second call rings. */
  lemma StaleRetryDialsALiveTarget() returns (steps: seq<Action>)
    ensures Fresh(Start(0)) && Most(TWICE.policy, 2) && ClockGoesOn(steps)
    ensures
      var s := After(TWICE, Start(0), steps);
      Asks(s.log, 0) == 3 && 2 in s.ringing && 2 in s.calls && s.calls[2] == CallRow(0, 2, None)
  {
    steps := OneDialTooMany(TWICE, 0, "customer_did_not_answer");
  }
}
