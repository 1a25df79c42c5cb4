/**
 A scripted run's transcript: what the caller was sent to say, interleaved with what
 the bot said.
 */
module Transcript {
  import opened Options

  datatype EventKind = Response | LlmResponse | OtherEvent

  /** What the run's events say the bot said; an absent field is the empty string. */
  datatype Event = Event(kind: EventKind, text: string, transcript: string)
  {
    function Spoken(): string {
      if text != "" then text else transcript
    }
  }

  datatype Role = User | Assistant

  /** What was said, or the keys that were pressed. */
  datatype Content = Words(words: string) | Keypad(keys: string)

  datatype Line = Line(role: Role, content: Content, text: Option<string>)

  /** A scripted turn: what the caller says, or else a keypress. */
  datatype Turn = Turn(user: string, dtmf: string)

  datatype TurnResult = TurnResult(notRun: bool, turnIndex: nat)

  // ----- what is kept of a list

  /** Of the first `n` the ones to keep. */
  function KeptUpTo<T>(all: seq<T>, keep: T -> bool, n: nat): (kept: seq<T>)
    requires n <= |all|
    ensures forall i :: 0 <= i < |kept| ==> keep(kept[i])
    decreases n
  {
    if n == 0 then [] else KeptUpTo(all, keep, n - 1) + if keep(all[n - 1]) then [all[n - 1]] else []
  }

  /** `kept` is what `keep` holds for among the first `n`, each at its place and in their
      order. */
  ghost predicate KeptInOrder<T>(all: seq<T>, kept: seq<T>, places: seq<nat>, keep: T -> bool, n: nat) {
    && |places| == |kept| && n <= |all|
    && (forall i :: 0 <= i < |kept| ==> places[i] < n && kept[i] == all[places[i]])
    && (forall i, j :: 0 <= i < j < |places| ==> places[i] < places[j])
    && forall k: nat :: k in places <==> k < n && keep(all[k])
  }

  /** What is kept is every one to keep and no other, once and in their order. */
  lemma {:induction false} KeptAreInOrder<T>(all: seq<T>, keep: T -> bool, n: nat) returns (places: seq<nat>)
    requires n <= |all|
    ensures KeptInOrder(all, KeptUpTo(all, keep, n), places, keep, n)
    decreases n
  {
    if n == 0 {
      places := [];
    } else {
      places := KeptAreInOrder(all, keep, n - 1);
      places := OneMoreInOrder(all, KeptUpTo(all, keep, n - 1), KeptUpTo(all, keep, n), places, keep, n - 1);
    }
  }

  lemma OneMoreInOrder<T>(all: seq<T>, kept: seq<T>, more: seq<T>, places: seq<nat>, keep: T -> bool, n: nat)
    returns (now: seq<nat>)
    requires n < |all| && KeptInOrder(all, kept, places, keep, n)
    requires more == kept + if keep(all[n]) then [all[n]] else []
    ensures KeptInOrder(all, more, now, keep, n + 1)
  {
    if keep(all[n]) {
      now := places + [n];
      assert forall i :: 0 <= i < |places| ==> places[i] in places;
      forall k: nat ensures k in now <==> k in places || k == n {
      }
    } else {
      now := places;
    }
  }

  lemma {:induction false} KeptOfFirst<T>(a: seq<T>, b: seq<T>, keep: T -> bool, n: nat)
    requires n <= |a|
    ensures KeptUpTo(a + b, keep, n) == KeptUpTo(a, keep, n)
    decreases n
  {
    if n > 0 {
      KeptOfFirst(a, b, keep, n - 1);
    }
  }

  lemma {:induction false} KeptOfBoth<T>(a: seq<T>, b: seq<T>, keep: T -> bool, n: nat)
    requires n <= |b|
    ensures KeptUpTo(a + b, keep, |a| + n) == KeptUpTo(a, keep, |a|) + KeptUpTo(b, keep, n)
    decreases n
  {
    if n == 0 {
      KeptOfFirst(a, b, keep, |a|);
    } else {
      KeptOfBoth(a, b, keep, n - 1);
      assert (a + b)[|a| + n - 1] == b[n - 1];
    }
  }

  lemma {:induction false} KeptOfAll<T>(all: seq<T>, keep: T -> bool, n: nat)
    requires n <= |all| && forall i :: 0 <= i < |all| ==> keep(all[i])
    ensures KeptUpTo(all, keep, n) == all[..n]
    decreases n
  {
    if n > 0 {
      KeptOfAll(all, keep, n - 1);
    }
  }

  lemma {:induction false} KeptOfNone<T>(all: seq<T>, keep: T -> bool, n: nat)
    requires n <= |all| && forall i :: 0 <= i < |all| ==> !keep(all[i])
    ensures KeptUpTo(all, keep, n) == []
    decreases n
  {
    if n > 0 {
      KeptOfNone(all, keep, n - 1);
    }
  }

  // ----- the bot's replies

  predicate Says(e: Event, kind: EventKind) {
    e.kind == kind && e.Spoken() != ""
  }

  function Saying(kind: EventKind): Event -> bool {
    (e: Event) => Says(e, kind)
  }

  /** The events of a kind that say something, in order. */
  function Sayings(events: seq<Event>, kind: EventKind): seq<Event> {
    KeptUpTo(events, Saying(kind), |events|)
  }

  method Collect(events: seq<Event>, kind: EventKind) returns (said: seq<Event>)
    ensures said == Sayings(events, kind) && forall i :: 0 <= i < |said| ==> said[i].Spoken() != ""
  {
    said := [];
    for i := 0 to |events|
      invariant said == KeptUpTo(events, Saying(kind), i)
    {
      if Says(events[i], kind) {
        said := said + [events[i]];
      }
    }
  }

  /** The events that say something, and no others, each once and in their order. */
  lemma SayingsInOrder(events: seq<Event>, kind: EventKind) returns (places: seq<nat>)
    ensures KeptInOrder(events, Sayings(events, kind), places, Saying(kind), |events|)
  {
    places := KeptAreInOrder(events, Saying(kind), |events|);
  }

  /** What the bot is known to have said: what was heard, or else what it wrote. */
  function Replies(events: seq<Event>): seq<Event> {
    if Sayings(events, Response) != [] then Sayings(events, Response) else Sayings(events, LlmResponse)
  }

  /** The line of a reply: what was said; and beside what was heard, what was written in
      its place when that differs. */
  predicate LineFor(events: seq<Event>, i: nat, line: Line)
    requires i < |Replies(events)|
  {
    var said, written := Replies(events)[i].Spoken(), Sayings(events, LlmResponse);
    && line.role == Assistant && line.content == Words(said)
    && (line.text.Some? <==> Sayings(events, Response) != [] && i < |written| && written[i].Spoken() != said)
    && (line.text.Some? ==> i < |written| && line.text.value == written[i].Spoken())
  }

  ghost predicate LinesFor(events: seq<Event>, lines: seq<Line>) {
    |lines| == |Replies(events)| && forall i :: 0 <= i < |lines| ==> LineFor(events, i, lines[i])
  }

  /** The lines of all the replies. */
  function BotLines(events: seq<Event>): (lines: seq<Line>)
    ensures LinesFor(events, lines)
  {
    var replies, written := Replies(events), Sayings(events, LlmResponse);
    seq(|replies|, i requires 0 <= i < |replies| =>
      Line(Assistant, Words(replies[i].Spoken()),
           if Sayings(events, Response) != [] && i < |written| && written[i].Spoken() != replies[i].Spoken()
           then Some(written[i].Spoken()) else None))
  }

  /** They are told by what each is a line for. */
  lemma LinesAreTheirs(events: seq<Event>, lines: seq<Line>)
    requires LinesFor(events, lines)
    ensures lines == BotLines(events)
  {
    forall i | 0 <= i < |lines| ensures lines[i] == BotLines(events)[i] {
      assert LineFor(events, i, lines[i]) && LineFor(events, i, BotLines(events)[i]);
    }
  }

  /** `_bot_turns`: one line for each reply, in order. */
  method BotTurns(events: seq<Event>) returns (lines: seq<Line>)
    ensures LinesFor(events, lines)
  {
    var heard := Collect(events, Response);
    var written := Collect(events, LlmResponse);
    lines := [];
    if heard == [] {
      for i := 0 to |written|
        invariant |lines| == i && forall j :: 0 <= j < i ==> LineFor(events, j, lines[j])
      {
        lines := lines + [Line(Assistant, Words(written[i].Spoken()), None)];
      }
      return;
    }
    for i := 0 to |heard|
      invariant |lines| == i && forall j :: 0 <= j < i ==> LineFor(events, j, lines[j])
    {
      var said := heard[i].Spoken();
      var text := if i < |written| then written[i].Spoken() else "";
      lines := lines + [Line(Assistant, Words(said), if text != "" && text != said then Some(text) else None)];
    }
  }

  // ----- the merge

  const RAN: TurnResult -> bool := (r: TurnResult) => !r.notRun

  /** The turns that ran. */
  function Scored(results: seq<TurnResult>): seq<TurnResult> {
    KeptUpTo(results, RAN, |results|)
  }

  /** The turns that ran, and no others, each once and in their order. */
  lemma ScoredInOrder(results: seq<TurnResult>) returns (places: seq<nat>)
    ensures KeptInOrder(results, Scored(results), places, RAN, |results|)
  {
    places := KeptAreInOrder(results, RAN, |results|);
  }

  /** A line of the caller's is that turn's words, or its keys where it has no words; there
      is one exactly when the script has the turn and the turn has either. */
  predicate SaidIn(turns: seq<Turn>, index: nat, lines: seq<Line>) {
    if index < |turns| && (turns[index].user != "" || turns[index].dtmf != "") then
      && |lines| == 1 && lines[0].role == User && lines[0].text == None
      && (lines[0].content.Words? <==> turns[index].user != "")
      && (lines[0].content.Words? ==> lines[0].content.words == turns[index].user)
      && (lines[0].content.Keypad? ==> lines[0].content.keys == turns[index].dtmf)
    else |lines| == 0
  }

  /** What the caller said in a turn, if the script has the turn and says anything. */
  function UserLine(turns: seq<Turn>, result: TurnResult): (lines: seq<Line>)
    ensures |lines| <= 1
  {
    if result.turnIndex >= |turns| then []
    else
      var turn := turns[result.turnIndex];
      if turn.user != "" then [Line(User, Words(turn.user), None)]
      else if turn.dtmf != "" then [Line(User, Keypad(turn.dtmf), None)]
      else []
  }

  lemma UserLineIsSaid(turns: seq<Turn>, result: TurnResult)
    ensures SaidIn(turns, result.turnIndex, UserLine(turns, result))
  {
  }

  /** The pieces 0 up to `n`, one after the other. */
  function Concat(piece: nat -> seq<Line>, n: nat): seq<Line>
    decreases n
  {
    if n == 0 then [] else Concat(piece, n - 1) + piece(n - 1)
  }

  /** What the caller said in each scored turn. */
  function CallerAt(turns: seq<Turn>, scored: seq<TurnResult>): nat -> seq<Line> {
    (k: nat) => if k < |scored| then UserLine(turns, scored[k]) else []
  }

  /** One reply at a time, as long as there are any. */
  function ReplyAt(replies: seq<Line>): nat -> seq<Line> {
    (k: nat) => if k < |replies| then [replies[k]] else []
  }

  /** What a scored turn adds: the caller's line and at most one reply. */
  function BlockAt(turns: seq<Turn>, scored: seq<TurnResult>, replies: seq<Line>): nat -> seq<Line> {
    (k: nat) => CallerAt(turns, scored)(k) + ReplyAt(replies)(k)
  }

  /** The blocks of the first `n` scored turns. */
  function Blocks(turns: seq<Turn>, scored: seq<TurnResult>, replies: seq<Line>, n: nat): seq<Line> {
    Concat(BlockAt(turns, scored, replies), n)
  }

  /** The caller's lines of the first `n` scored turns. */
  function Callers(turns: seq<Turn>, scored: seq<TurnResult>, n: nat): seq<Line> {
    Concat(CallerAt(turns, scored), n)
  }

  function Used(scored: nat, replies: nat): nat {
    if scored <= replies then scored else replies
  }

  /** The first replies, one for each of `n` scored turns as far as there are any. */
  function FirstReplies(replies: seq<Line>, n: nat): seq<Line> {
    replies[..Used(n, |replies|)]
  }

  /** The scored turns' blocks, then the replies left over. */
  function Merged(turns: seq<Turn>, scored: seq<TurnResult>, replies: seq<Line>): seq<Line> {
    Blocks(turns, scored, replies, |scored|) + replies[Used(|scored|, |replies|)..]
  }

  lemma {:induction false} KeptGrows<T>(all: seq<T>, keep: T -> bool, n: nat, m: nat)
    requires n <= m <= |all|
    ensures KeptUpTo(all, keep, n) <= KeptUpTo(all, keep, m)
    decreases m
  {
    if n < m {
      KeptGrows(all, keep, n, m - 1);
    }
  }

  /** The next to keep is the next of all kept. */
  lemma NextKept<T>(all: seq<T>, keep: T -> bool, n: nat)
    requires n < |all| && keep(all[n])
    ensures
      var k, kept := |KeptUpTo(all, keep, n)|, KeptUpTo(all, keep, |all|);
      k < |kept| && kept[k] == all[n] && |KeptUpTo(all, keep, n + 1)| == k + 1
  {
    var now := KeptUpTo(all, keep, n + 1);
    KeptGrows(all, keep, n + 1, |all|);
    assert now[|now| - 1] == all[n];
  }

  method CallerLine(turns: seq<Turn>, result: TurnResult) returns (lines: seq<Line>)
    ensures lines == UserLine(turns, result)
  {
    lines := [];
    var index := result.turnIndex;
    if index < |turns| {
      var turn := turns[index];
      if turn.user != "" {
        lines := [Line(User, Words(turn.user), None)];
      } else if turn.dtmf != "" {
        lines := [Line(User, Keypad(turn.dtmf), None)];
      }
    }
  }

  /** The next reply, if one is left. */
  method TakeReply(said: seq<Line>, consumed: nat) returns (reply: seq<Line>, now: nat)
    ensures reply == ReplyAt(said)(consumed) && now == if consumed < |said| then consumed + 1 else consumed
  {
    reply, now := [], consumed;
    if consumed < |said| {
      reply := [said[consumed]];
      now := consumed + 1;
    }
  }

  /** A scored turn's lines at the end of the transcript so far. */
  method AddBlock(turns: seq<Turn>, ghost scored: seq<TurnResult>, said: seq<Line>, ghost k: nat,
                  transcript: seq<Line>, result: TurnResult, consumed: nat)
    returns (more: seq<Line>, now: nat)
    requires k < |scored| && result == scored[k] && consumed == Used(k, |said|)
    requires transcript == Blocks(turns, scored, said, k)
    ensures more == Blocks(turns, scored, said, k + 1) && now == Used(k + 1, |said|)
  {
    var caller := CallerLine(turns, result);
    var reply;
    reply, now := TakeReply(said, consumed);
    assert BlockAt(turns, scored, said)(k) == caller + reply;
    more := transcript + (caller + reply);
  }

  /** `_transcript_from_script`: the scored turns' blocks in order, then the replies that
      no scored turn was left for. */
  method TranscriptFromScript(events: seq<Event>, results: seq<TurnResult>, turns: seq<Turn>)
    returns (transcript: seq<Line>)
    ensures transcript == Merged(turns, Scored(results), BotLines(events))
  {
    var said := BotTurns(events);
    LinesAreTheirs(events, said);
    transcript := [];
    var consumed := 0;
    ghost var k, scored := 0, Scored(results);
    for i := 0 to |results|
      invariant k == |KeptUpTo(results, RAN, i)| && consumed == Used(k, |said|)
      invariant transcript == Blocks(turns, scored, said, k)
    {
      if results[i].notRun {
        continue;
      }
      NextKept(results, RAN, i);
      transcript, consumed := AddBlock(turns, scored, said, k, transcript, results[i], consumed);
      k := k + 1;
    }
    transcript := transcript + said[consumed..];
  }

  // ----- nothing lost, nothing invented

  predicate All(role: Role, lines: seq<Line>) {
    forall i :: 0 <= i < |lines| ==> lines[i].role == role
  }

  function Opposite(role: Role): Role {
    if role.User? then Assistant else User
  }

  function Has(role: Role): Line -> bool {
    (line: Line) => line.role == role
  }

  function Of(role: Role, lines: seq<Line>): seq<Line> {
    KeptUpTo(lines, Has(role), |lines|)
  }

  lemma OfBoth(role: Role, a: seq<Line>, b: seq<Line>)
    ensures Of(role, a + b) == Of(role, a) + Of(role, b)
  {
    KeptOfBoth(a, b, Has(role), |b|);
  }

  lemma OfOne(role: Role, lines: seq<Line>)
    requires All(role, lines)
    ensures Of(role, lines) == lines && Of(Opposite(role), lines) == []
  {
    KeptOfAll(lines, Has(role), |lines|);
    KeptOfNone(lines, Has(Opposite(role)), |lines|);
    assert lines[..|lines|] == lines;
  }

  /** What is a role's of the pieces together is that of each. */
  lemma {:induction false} OfConcat(role: Role, piece: nat -> seq<Line>, its: nat -> seq<Line>, n: nat)
    requires forall k :: 0 <= k < n ==> Of(role, piece(k)) == its(k)
    ensures Of(role, Concat(piece, n)) == Concat(its, n)
    decreases n
  {
    if n > 0 {
      OfConcat(role, piece, its, n - 1);
      OfBoth(role, Concat(piece, n - 1), piece(n - 1));
    }
  }

  lemma BlockOfUser(turns: seq<Turn>, scored: seq<TurnResult>, replies: seq<Line>, k: nat)
    requires All(Assistant, replies)
    ensures Of(User, BlockAt(turns, scored, replies)(k)) == CallerAt(turns, scored)(k)
  {
    var caller, reply := CallerAt(turns, scored)(k), ReplyAt(replies)(k);
    OfBoth(User, caller, reply);
    OfOne(User, caller);
    OfOne(Assistant, reply);
  }

  lemma BlockOfAssistant(turns: seq<Turn>, scored: seq<TurnResult>, replies: seq<Line>, k: nat)
    requires All(Assistant, replies)
    ensures Of(Assistant, BlockAt(turns, scored, replies)(k)) == ReplyAt(replies)(k)
  {
    var caller, reply := CallerAt(turns, scored)(k), ReplyAt(replies)(k);
    OfBoth(Assistant, caller, reply);
    OfOne(User, caller);
    OfOne(Assistant, reply);
  }

  lemma BlocksOfUser(turns: seq<Turn>, scored: seq<TurnResult>, replies: seq<Line>, n: nat)
    requires n <= |scored| && All(Assistant, replies)
    ensures Of(User, Blocks(turns, scored, replies, n)) == Callers(turns, scored, n)
  {
    forall k | 0 <= k < n
      ensures Of(User, BlockAt(turns, scored, replies)(k)) == CallerAt(turns, scored)(k)
    {
      BlockOfUser(turns, scored, replies, k);
    }
    OfConcat(User, BlockAt(turns, scored, replies), CallerAt(turns, scored), n);
  }

  lemma {:induction false} FirstRepliesAre(replies: seq<Line>, n: nat)
    ensures Concat(ReplyAt(replies), n) == FirstReplies(replies, n)
    decreases n
  {
    if n > 0 {
      FirstRepliesAre(replies, n - 1);
    }
  }

  lemma BlocksOfAssistant(turns: seq<Turn>, scored: seq<TurnResult>, replies: seq<Line>, n: nat)
    requires n <= |scored| && All(Assistant, replies)
    ensures Of(Assistant, Blocks(turns, scored, replies, n)) == FirstReplies(replies, n)
  {
    forall k | 0 <= k < n ensures Of(Assistant, BlockAt(turns, scored, replies)(k)) == ReplyAt(replies)(k) {
      BlockOfAssistant(turns, scored, replies, k);
    }
    OfConcat(Assistant, BlockAt(turns, scored, replies), ReplyAt(replies), n);
    FirstRepliesAre(replies, n);
  }

  lemma CallersKept(turns: seq<Turn>, scored: seq<TurnResult>, replies: seq<Line>)
    requires All(Assistant, replies)
    ensures Of(User, Merged(turns, scored, replies)) == Callers(turns, scored, |scored|)
  {
    var left := replies[Used(|scored|, |replies|)..];
    BlocksOfUser(turns, scored, replies, |scored|);
    OfBoth(User, Blocks(turns, scored, replies, |scored|), left);
    OfOne(Assistant, left);
  }

  lemma RepliesKept(turns: seq<Turn>, scored: seq<TurnResult>, replies: seq<Line>)
    requires All(Assistant, replies)
    ensures Of(Assistant, Merged(turns, scored, replies)) == replies
  {
    var left := replies[Used(|scored|, |replies|)..];
    BlocksOfAssistant(turns, scored, replies, |scored|);
    OfBoth(Assistant, Blocks(turns, scored, replies, |scored|), left);
    OfOne(Assistant, left);
  }

  /** A transcript's caller lines are exactly the scored turns' and its bot lines exactly
      the replies, each in order; a turn that did not run adds nothing. */
  lemma NothingLostOrInvented(events: seq<Event>, results: seq<TurnResult>, turns: seq<Turn>)
    ensures
      var transcript := Merged(turns, Scored(results), BotLines(events));
      && Of(User, transcript) == Callers(turns, Scored(results), |Scored(results)|)
      && Of(Assistant, transcript) == BotLines(events)
  {
    var replies := BotLines(events);
    assert All(Assistant, replies) by {
      forall i | 0 <= i < |replies| ensures replies[i].role == Assistant {
        assert LineFor(events, i, replies[i]);
      }
    }
    CallersKept(turns, Scored(results), replies);
    RepliesKept(turns, Scored(results), replies);
  }

  // ----- turn by turn

  lemma {:induction false} ConcatGrows(piece: nat -> seq<Line>, k: nat, n: nat)
    requires k <= n
    ensures Concat(piece, k) <= Concat(piece, n)
    decreases n
  {
    if k < n {
      ConcatGrows(piece, k, n - 1);
    }
  }

  /** A cut of the transcript before a scored turn: before it are exactly the lines of the
      turns scored earlier and as many of the replies, and at it the turn's own line and
      then the next reply, if there is one. */
  ghost predicate CutBefore(turns: seq<Turn>, scored: seq<TurnResult>, replies: seq<Line>, transcript: seq<Line>,
                            k: nat, at: nat)
    requires k < |scored|
  {
    && at <= |transcript|
    && Of(User, transcript[..at]) == Callers(turns, scored, k)
    && Of(Assistant, transcript[..at]) == FirstReplies(replies, k)
    && exists caller, reply ::
         && SaidIn(turns, scored[k].turnIndex, caller)
         && reply == (if k < |replies| then [replies[k]] else [])
         && caller + reply <= transcript[at..]
  }

  lemma CutAt(before: seq<Line>, block: seq<Line>, transcript: seq<Line>)
    requires before + block <= transcript
    ensures |before| <= |transcript| && transcript[..|before|] == before && block <= transcript[|before|..]
  {
    assert transcript[..|before|] == (before + block)[..|before|];
    assert transcript[|before|..][..|block|] == (before + block)[|before|..];
  }

  lemma BlockIsInMerged(turns: seq<Turn>, scored: seq<TurnResult>, replies: seq<Line>, k: nat)
    requires k < |scored|
    ensures Blocks(turns, scored, replies, k) + BlockAt(turns, scored, replies)(k) <= Merged(turns, scored, replies)
  {
    ConcatGrows(BlockAt(turns, scored, replies), k + 1, |scored|);
  }

  lemma TurnHasCut(turns: seq<Turn>, scored: seq<TurnResult>, replies: seq<Line>, k: nat)
    requires k < |scored| && All(Assistant, replies)
    ensures CutBefore(turns, scored, replies, Merged(turns, scored, replies), k, |Blocks(turns, scored, replies, k)|)
  {
    BlocksOfUser(turns, scored, replies, k);
    BlocksOfAssistant(turns, scored, replies, k);
    BlockIsInMerged(turns, scored, replies, k);
    CutAt(Blocks(turns, scored, replies, k), BlockAt(turns, scored, replies)(k), Merged(turns, scored, replies));
    var caller, reply := CallerAt(turns, scored)(k), ReplyAt(replies)(k);
    assert SaidIn(turns, scored[k].turnIndex, caller) by {
      UserLineIsSaid(turns, scored[k]);
    }
    assert BlockAt(turns, scored, replies)(k) == caller + reply;
    assert reply == if k < |replies| then [replies[k]] else [];
  }

  /** Each scored turn has such a cut: its line comes after the earlier turns' and their
      replies, one reply to a turn, and its own reply right after it. */
  lemma TurnByTurn(events: seq<Event>, results: seq<TurnResult>, turns: seq<Turn>, k: nat)
    requires k < |Scored(results)|
    ensures exists at :: CutBefore(turns, Scored(results), BotLines(events),
                                   Merged(turns, Scored(results), BotLines(events)), k, at)
  {
    var replies := BotLines(events);
    forall i | 0 <= i < |replies| ensures replies[i].role == Assistant {
      assert LineFor(events, i, replies[i]);
    }
    TurnHasCut(turns, Scored(results), replies, k);
  }
}
