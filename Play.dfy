/**
 * The game of main.js as a state machine on values. `State` gathers the
 * module-level variables of main.js; each operation of the game (the state
 * part of `resetGame`, `handleClick`, the two `setTimeout` callbacks,
 * `update` with its pending-unflip watchdog, `finishGame`,
 * `startTimerIfNeeded` and the frame `loop`) is a function from state to
 * state. The class in module Game runs the same operations by updating its
 * fields, and its methods are specified by these functions; the lemmas here
 * state what the operations guarantee.
 *
 * `performance.now()` and the frame timestamp are the field `clock`, in
 * whole milliseconds. A card reference held by `selected`, `pendingPair` or a
 * timer closure is the card's board index (ids are indices and the deck is
 * never reordered).
 */
module Play {
  import opened Options
  import opened Deck
  import opened Animation
  import opened BestScore
  import opened PlayerName

  // Board and timing constants (main.js:38-40, 73, 261, 267).
  const Rows: nat := 4
  const Cols: nat := 4
  const PairCount: nat := 8
  const SingleFlipDelayMs: nat := 900
  const DecisionDelayMs: nat := 600
  const UnflipWatchdogMs: nat := 700

  /** A pending one-shot callback: none, or one that runs at time `due`. */
  datatype Timer = Idle | Armed(due: int)

  /** The pending pair-decision callback, with the two cards its closure captured. */
  datatype Decision = NoDecision | DecisionArmed(due: int, first: nat, second: nat)

  /** The two cards of a mismatch that are on their way back down. */
  datatype Pair = Pair(first: nat, second: nat)

  /** `moves`, `matches` and the flags of a pair being resolved (main.js:52-57, 68, 71). */
  datatype Turn = Turn(
    moves: nat,
    matches: nat,
    resolving: bool,
    pendingUnflip: bool,
    pendingPair: Option<Pair>,
    unflipDeadline: int)

  /** `singleFlipTimer` and `resolveTimer` (main.js:69, 72). */
  datatype Timers = Timers(singleFlip: Timer, resolve: Decision)

  /** Session timing and flags (main.js:54-55, 58-60, 63-64). */
  datatype Session = Session(
    startTime: Option<int>,
    lastTime: Option<int>,
    endTime: Option<int>,
    lastElapsedMs: int,
    gameOver: bool,
    gameStarted: bool,
    nameReady: bool)

  /**
   * The whole game state. `best` is the local store entry under the board's
   * best-score key; `dealt` records the values as dealt, which never move.
   */
  datatype State = State(
    cards: seq<Card>,
    selected: seq<nat>,
    turn: Turn,
    timers: Timers,
    session: Session,
    flipGlow: real,
    clock: nat,
    best: Stored,
    dealt: seq<int>)

  /** A card settled face up: what the second pick forces and what a match keeps. */
  predicate Shown(c: Card)
  {
    c.faceUp && c.targetFaceUp && !c.flipping && c.flipProgress == 1.0
  }

  // ---------------------------------------------------------------------
  // Counting matched cards

  function MatchedCount(cards: seq<Card>): (n: nat)
    ensures n <= |cards|
  {
    if cards == [] then 0 else (if cards[0].matched then 1 else 0) + MatchedCount(cards[1..])
  }

  lemma {:induction false} SameFlagsSameCount(a: seq<Card>, b: seq<Card>)
    requires |a| == |b| && forall k :: 0 <= k < |a| ==> a[k].matched == b[k].matched
    ensures MatchedCount(a) == MatchedCount(b)
  {
    if a != [] {
      SameFlagsSameCount(a[1..], b[1..]);
    }
  }

  /** Marking one unmatched card adds exactly one to the count. */
  lemma {:induction false} MarkCounts(a: seq<Card>, k: nat, c: Card)
    requires k < |a| && !a[k].matched && c.matched
    ensures MatchedCount(a[k := c]) == MatchedCount(a) + 1
  {
    if k == 0 {
      assert a[k := c][1..] == a[1..];
    } else {
      MarkCounts(a[1..], k - 1, c);
      assert a[k := c][1..] == a[1..][k - 1 := c];
    }
  }

  /** The count reaches the deck's size exactly when every card is matched. */
  lemma {:induction false} FullCountAllMatched(a: seq<Card>)
    ensures MatchedCount(a) == |a| <==> forall k :: 0 <= k < |a| ==> a[k].matched
  {
    if a != [] {
      FullCountAllMatched(a[1..]);
      assert forall k :: 1 <= k < |a| ==> a[k] == a[1..][k - 1];
    }
  }

  lemma {:induction false} NoneMatched(a: seq<Card>)
    requires forall k :: 0 <= k < |a| ==> !a[k].matched
    ensures MatchedCount(a) == 0
  {
    if a != [] { NoneMatched(a[1..]); }
  }

  // ---------------------------------------------------------------------
  // The invariant

  /** Every card keeps its cell and its dealt value, a sane animation state, and a matched card stays shown. */
  ghost predicate CardsOk(cards: seq<Card>, dealt: seq<int>)
  {
    && |cards| == Rows * Cols && |dealt| == |cards|
    && (forall v :: multiset(dealt)[v] == if 1 <= v <= PairCount then 2 else 0)
    && forall k :: 0 <= k < |cards| ==>
         && Placed(cards[k], k, Cols) && cards[k].value == dealt[k]
         && WellFormed(cards[k])
         && (cards[k].matched ==> Shown(cards[k]))
  }

  /** Every card the state refers to by index is on the board. */
  predicate InRange(s: State)
  {
    && (forall i :: 0 <= i < |s.selected| ==> s.selected[i] < |s.cards|)
    && (s.timers.resolve.DecisionArmed? ==>
          s.timers.resolve.first < |s.cards| && s.timers.resolve.second < |s.cards|)
    && (s.turn.pendingPair.Some? ==>
          s.turn.pendingPair.value.first < |s.cards| && s.turn.pendingPair.value.second < |s.cards|)
  }

  /**
   * The selection holds at most two distinct unmatched cards headed face up;
   * one selected card means the single-flip callback is pending, two mean a
   * decision is pending on exactly them, both shown; `resolving` is
   * "decision pending or a mismatch still returning".
   */
  ghost predicate SelectionOk(s: State)
  {
    && InRange(s)
    && |s.selected| <= 2
    && (forall i :: 0 <= i < |s.selected| ==>
          !s.cards[s.selected[i]].matched && s.cards[s.selected[i]].targetFaceUp)
    && (|s.selected| == 2 ==> s.selected[0] != s.selected[1])
    && (s.timers.singleFlip.Armed? <==> |s.selected| == 1)
    && (s.timers.resolve.DecisionArmed? <==> |s.selected| == 2)
    && (s.timers.resolve.DecisionArmed? ==>
          && s.selected == [s.timers.resolve.first, s.timers.resolve.second]
          && Shown(s.cards[s.timers.resolve.first]) && Shown(s.cards[s.timers.resolve.second])
          && s.turn.matches < s.turn.moves)
    && (s.turn.resolving <==> s.timers.resolve.DecisionArmed? || s.turn.pendingUnflip)
    && (s.turn.pendingUnflip <==> s.turn.pendingPair.Some?)
    && (s.turn.pendingUnflip ==>
          && s.selected == []
          && !s.cards[s.turn.pendingPair.value.first].matched
          && !s.cards[s.turn.pendingPair.value.second].matched
          && s.turn.unflipDeadline >= UnflipWatchdogMs)
  }

  /**
   * The counters agree with the board, the game is over exactly when all
   * pairs are found, and the timestamps are ordered and not in the future.
   */
  ghost predicate SessionOk(s: State)
  {
    && 2 * s.turn.matches == MatchedCount(s.cards)
    && s.turn.matches <= s.turn.moves
    && (s.session.gameOver <==> s.turn.matches == PairCount)
    && (s.session.gameOver <==> s.session.endTime.Some?)
    && (s.session.gameStarted <==> s.session.startTime.Some?)
    && (s.turn.moves > 0 || s.selected != [] ==> s.session.gameStarted)
    && (s.session.startTime.Some? ==> s.session.startTime.value <= s.clock)
    && (s.session.endTime.Some? ==>
          s.session.startTime.Some? && s.session.startTime.value <= s.session.endTime.value <= s.clock)
    && (s.session.lastTime.Some? ==> s.session.lastTime.value <= s.clock)
    && 0.0 <= s.flipGlow <= 1.0
  }

  ghost predicate Inv(s: State)
  {
    CardsOk(s.cards, s.dealt) && SelectionOk(s) && SessionOk(s)
  }

  // ---------------------------------------------------------------------
  // The operations

  /** A JavaScript number read from a nullable timestamp: `null` counts as 0. */
  function Num(t: Option<int>): int
  {
    if t.Some? then t.value else 0
  }

  /** The module-level state as main.js:50-75 declares it, at time `now`, with the store holding `stored`. */
  function Boot(now: nat, stored: Stored): State
  {
    State([], [], Turn(0, 0, false, false, None, 0), Timers(Idle, NoDecision),
          Session(None, None, None, 0, false, false, false), 0.0, now, stored, [])
  }

  /**
   * The state part of `resetGame` (main.js:159-189): a new deck dealt with
   * the shuffle choices `js`, every counter, flag and timer back to its
   * initial value, and the closing `ensurePlayerName` on the name text `raw`.
   */
  function Reset(s: State, js: seq<nat>, raw: string): State
    requires SwapOracle(js, Rows * Cols)
  {
    var vals := Shuffled(PairList(PairCount), js);
    State(DeckOf(vals, Cols), [], Turn(0, 0, false, false, None, 0), Timers(Idle, NoDecision),
          Session(None, None, None, 0, false, false, NameGiven(raw)),
          s.flipGlow, s.clock, s.best, vals)
  }

  /** `ensurePlayerName` (main.js:591-604): the name is ready when the field's text is not blank. */
  function NameCheck(s: State, raw: string): State
  {
    s.(session := s.session.(nameReady := NameGiven(raw)))
  }

  /** `startTimerIfNeeded` (main.js:606-611). */
  function StartTimer(s: State): State
  {
    if s.session.gameStarted || s.session.gameOver then s
    else s.(session := s.session.(startTime := Some(s.clock), lastTime := None, gameStarted := true))
  }

  /** The Enter key on the name field (main.js:469-475). */
  function SubmitName(s: State, raw: string): State
  {
    if NameGiven(raw) then StartTimer(NameCheck(s, raw)) else NameCheck(s, raw)
  }

  /** The card checks of `handleClick` (main.js:214-215). */
  predicate Selectable(s: State, k: nat)
  {
    k < |s.cards| && !s.cards[k].matched && !s.cards[k].faceUp && !s.cards[k].flipping
    && k !in s.selected
  }

  /**
   * The accepted pick of card `k` (main.js:217-268): start it flipping up,
   * light the glow and append it; a first pick (re)arms the single-flip
   * callback, a second forces both cards face up, counts the move and arms
   * the decision.
   */
  function Pick(s: State, k: nat): State
    requires k < |s.cards| && InRange(s)
  {
    var cards := s.cards[k := FlipTo(s.cards[k], true)];
    var sel := s.selected + [k];
    if |sel| == 1 then
      s.(cards := cards, flipGlow := 1.0, selected := sel,
         timers := s.timers.(singleFlip := Armed(s.clock + SingleFlipDelayMs)))
    else if |sel| == 2 then
      var first, second := sel[0], sel[1];
      var up := cards[first := ForceFaceUp(cards[first])];
      s.(cards := up[second := ForceFaceUp(up[second])], flipGlow := 1.0, selected := sel,
         turn := s.turn.(moves := s.turn.moves + 1, resolving := true),
         timers := Timers(Idle, DecisionArmed(s.clock + DecisionDelayMs, first, second)))
    else
      s.(cards := cards, flipGlow := 1.0, selected := sel)
  }

  /**
   * `handleClick` (main.js:201-269) for a click at board point (px, py),
   * with the name field holding `raw`.
   */
  function Click(s: State, raw: string, px: int, py: int): State
    requires InRange(s)
  {
    if !NameGiven(raw) then NameCheck(s, raw)
    else
      var s1 := StartTimer(NameCheck(s, raw));
      if s1.turn.resolving then s1
      else match HitTest(s1.cards, px, py)
        case None => s1
        case Some(k) => if Selectable(s1, k) then Pick(s1, k) else s1
  }

  /** The single-flip callback (main.js:225-231) running. */
  function SingleFlipFires(s: State): State
    requires InRange(s)
  {
    var idle := s.timers.(singleFlip := Idle);
    if |s.selected| == 1 && !s.cards[s.selected[0]].matched then
      var j := s.selected[0];
      s.(selected := [], cards := s.cards[j := FlipTo(s.cards[j], false)], timers := idle)
    else
      s.(timers := idle)
  }

  /** `finishGame` (main.js:562-570): once only, stamp the end and offer the result as best. */
  function Finish(s: State): State
  {
    if s.session.gameOver then s
    else s.(session := s.session.(gameOver := true, endTime := Some(s.clock)),
            best := MaybeUpdateBest(s.best, Score(s.turn.moves, s.session.lastElapsedMs)))
  }

  /** The decision callback (main.js:247-267) running on the pair it captured. */
  function DecisionFires(s: State): State
    requires InRange(s) && s.timers.resolve.DecisionArmed?
  {
    var first, second := s.timers.resolve.first, s.timers.resolve.second;
    var timers := s.timers.(resolve := NoDecision);
    if s.cards[first].value == s.cards[second].value then
      var marked := s.cards[first := s.cards[first].(matched := true)];
      var s1 := s.(cards := marked[second := marked[second].(matched := true)],
                   turn := s.turn.(matches := s.turn.matches + 1, resolving := false),
                   selected := [], timers := timers);
      if s1.turn.matches == PairCount then Finish(s1) else s1
    else
      var down := s.cards[first := FlipTo(s.cards[first], false)];
      s.(turn := s.turn.(pendingUnflip := true, unflipDeadline := s.clock + UnflipWatchdogMs,
                         pendingPair := Some(Pair(first, second))),
         selected := [], cards := down[second := FlipTo(down[second], false)], timers := timers)
  }

  /** The card loops of `update`: every card takes one frame step. */
  function FrameCards(cards: seq<Card>, delta: real, speed: real): seq<Card>
  {
    seq(|cards|, k requires 0 <= k < |cards| => FrameCard(cards[k], delta, speed))
  }

  /**
   * The pending-unflip watchdog of `update` (main.js:305-325): a returning
   * pair releases the board once both cards are down, or is forced down once
   * the deadline has passed.
   */
  function Watchdog(s: State): State
    requires InRange(s)
  {
    if s.turn.pendingUnflip && s.turn.pendingPair.Some? then
      var p := s.turn.pendingPair.value;
      var cleared := s.turn.(pendingUnflip := false, resolving := false, pendingPair := None);
      if !s.cards[p.first].flipping && !s.cards[p.first].faceUp
         && !s.cards[p.second].flipping && !s.cards[p.second].faceUp then
        s.(turn := cleared)
      else if s.turn.unflipDeadline != 0 && s.clock >= s.turn.unflipDeadline then
        var down := s.cards[p.first := ForceFaceDown(s.cards[p.first])];
        s.(cards := down[p.second := ForceFaceDown(down[p.second])], turn := cleared)
      else s
    else s
  }

  /** Elapsed time as `update` computes it (main.js:327-329); a start time of 0 reads as unset. */
  function ElapsedMs(ses: Session, now: int): int
  {
    if ses.startTime.Some? && ses.startTime.value != 0 then
      (if ses.gameOver then Num(ses.endTime) - ses.startTime.value else now - ses.startTime.value)
    else 0
  }

  /** `update(delta)` (main.js:271-332) at flip speed `speed`. */
  function Update(s: State, delta: real, speed: real): State
    requires InRange(s)
  {
    var s1 := Watchdog(s.(cards := FrameCards(s.cards, delta, speed),
                          flipGlow := Decayed(s.flipGlow, GlowRate, delta)));
    s1.(session := s1.session.(lastElapsedMs := ElapsedMs(s1.session, s1.clock)))
  }

  /** The seconds since the previous frame; the first frame after a start counts as 0 (main.js:455-458). */
  function FrameDelta(s: State): real
  {
    var last := if s.session.lastTime.None? then s.clock else s.session.lastTime.value;
    (s.clock - last) as real / 1000.0
  }

  /** The frame time recorded for the next frame (main.js:459). */
  function Stamp(s: State): State
  {
    s.(session := s.session.(lastTime := Some(s.clock)))
  }

  /** One run of `loop` (main.js:454-463) with the frame timestamp equal to the clock. */
  function Tick(s: State, speed: real): State
    requires InRange(s)
  {
    Update(Stamp(s), FrameDelta(s), speed)
  }

  /** Time passes. */
  function Elapse(s: State, ms: nat): State
  {
    s.(clock := s.clock + ms)
  }

  // ---------------------------------------------------------------------
  // What the operations guarantee

  /**
   * A reset deals a fresh board: 16 cards face down and unmatched in row-major
   * order, each value of 1..8 twice, and every invariant in place.
   */
  lemma ResetValid(s: State, js: seq<nat>, raw: string)
    requires SwapOracle(js, Rows * Cols) && 0.0 <= s.flipGlow <= 1.0
    ensures var r := Reset(s, js, raw);
            && Inv(r) && r.dealt == Shuffled(PairList(PairCount), js)
            && (forall k :: 0 <= k < |r.cards| ==> Dealt(r.cards[k], k, Cols, r.dealt) && r.cards[k].row < Rows)
            && r.session.nameReady == NameGiven(raw)
            && r.selected == [] && r.turn == Turn(0, 0, false, false, None, 0)
            && r.timers == Timers(Idle, NoDecision)
            && r.session.startTime.None? && r.session.endTime.None? && r.session.lastTime.None?
            && !r.session.gameStarted && !r.session.gameOver
            && r.clock == s.clock && r.best == s.best && r.flipGlow == s.flipGlow
  {
    FreshDeal(js);
  }

  /** The deal of a reset: a sane board of 16 unmatched cards in row-major order. */
  lemma FreshDeal(js: seq<nat>)
    requires SwapOracle(js, Rows * Cols)
    ensures var vals := Shuffled(PairList(PairCount), js);
            var cards := DeckOf(vals, Cols);
            && CardsOk(cards, vals) && MatchedCount(cards) == 0
            && (forall k :: 0 <= k < |cards| ==> Dealt(cards[k], k, Cols, vals) && cards[k].row < Rows)
  {
    var vals := Shuffled(PairList(PairCount), js);
    var cards := DeckOf(vals, Cols);
    ShuffledPermutes(PairList(PairCount), js);
    forall v ensures multiset(vals)[v] == if 1 <= v <= PairCount then 2 else 0 {
      PairListCounts(PairCount, v);
    }
    forall k | 0 <= k < |cards|
      ensures Placed(cards[k], k, Cols) && WellFormed(cards[k]) && !cards[k].matched
      ensures cards[k].value == vals[k] && cards[k].row < Rows
    {
      assert Dealt(cards[k], k, Cols, vals);
    }
    NoneMatched(cards);
  }

  /**
   * Nothing of the previous game survives a reset but the glow, the clock and
   * the stored best: two states that agree on those reset to the same state.
   */
  lemma ResetForgets(s: State, t: State, js: seq<nat>, raw: string)
    requires SwapOracle(js, Rows * Cols)
    requires s.flipGlow == t.flipGlow && s.clock == t.clock && s.best == t.best
    ensures Reset(s, js, raw) == Reset(t, js, raw)
  {
  }

  /** The name check and the start of the clock touch only the session flags and keep every invariant. */
  lemma StartValid(s: State, raw: string)
    requires Inv(s)
    ensures Inv(NameCheck(s, raw)) && Inv(StartTimer(NameCheck(s, raw))) && Inv(SubmitName(s, raw))
  {
  }

  /** After the game is over every card is matched, so no card can be picked. */
  lemma OverNothingSelectable(s: State, k: nat)
    requires Inv(s) && s.session.gameOver
    ensures !Selectable(s, k)
  {
    FullCountAllMatched(s.cards);
  }

  /** Replacing one card by a sane card in the same cell keeps the board invariant. */
  lemma CardsUpdate(cards: seq<Card>, dealt: seq<int>, k: nat, c: Card)
    requires CardsOk(cards, dealt) && k < |cards|
    requires SameCell(cards[k], c) && WellFormed(c) && (c.matched ==> Shown(c))
    ensures CardsOk(cards[k := c], dealt)
  {
    var u := cards[k := c];
    forall j | 0 <= j < |u| ensures Placed(u[j], j, Cols) {
      assert Placed(cards[j], j, Cols);
    }
  }

  /** A first pick keeps every invariant. */
  lemma PickFirstValid(s: State, k: nat)
    requires Inv(s) && Selectable(s, k) && !s.turn.resolving && s.session.gameStarted
    requires s.selected == []
    ensures Inv(Pick(s, k))
  {
    var c := FlipTo(s.cards[k], true);
    CardsUpdate(s.cards, s.dealt, k, c);
    SameFlagsSameCount(s.cards, s.cards[k := c]);
  }

  /**
   * What a first pick does (main.js:217-231): the card starts flipping face up
   * with a full pulse, the glow lights, the selection holds just that card,
   * and the single-flip callback is armed 900 ms ahead; the turn counters and
   * the other cards are untouched.
   */
  lemma PickFirstEffect(s: State, k: nat)
    requires InRange(s) && k < |s.cards| && s.selected == []
    ensures var r := Pick(s, k);
            && r.selected == [k] && r.timers.singleFlip == Armed(s.clock + SingleFlipDelayMs)
            && r.timers.resolve == s.timers.resolve
            && |r.cards| == |s.cards| && SameCell(s.cards[k], r.cards[k])
            && r.cards[k].flipping && r.cards[k].targetFaceUp && r.cards[k].pulse == 1.0
            && r.cards[k].faceUp == s.cards[k].faceUp && r.cards[k].matched == s.cards[k].matched
            && r.flipGlow == 1.0 && r.turn == s.turn && r.session == s.session
            && (forall j :: 0 <= j < |s.cards| && j != k ==> r.cards[j] == s.cards[j])
  {
  }

  /** The board after a second pick: both cards forced face up, nothing else disturbed. */
  lemma PickSecondCards(s: State, k: nat)
    requires CardsOk(s.cards, s.dealt) && InRange(s) && |s.selected| == 1
    requires Selectable(s, k) && !s.cards[s.selected[0]].matched
    ensures var r := Pick(s, k).cards;
            && CardsOk(r, s.dealt) && MatchedCount(r) == MatchedCount(s.cards)
            && Shown(r[s.selected[0]]) && Shown(r[k])
            && !r[s.selected[0]].matched && !r[k].matched
  {
    var first := s.selected[0];
    var flipped := s.cards[k := FlipTo(s.cards[k], true)];
    CardsUpdate(s.cards, s.dealt, k, flipped[k]);
    var up := flipped[first := ForceFaceUp(flipped[first])];
    CardsUpdate(flipped, s.dealt, first, up[first]);
    var r := up[k := ForceFaceUp(up[k])];
    CardsUpdate(up, s.dealt, k, r[k]);
    SameFlagsSameCount(s.cards, r);
    assert Pick(s, k).cards == r;
  }

  /** A second pick keeps every invariant. */
  lemma PickSecondValid(s: State, k: nat)
    requires Inv(s) && Selectable(s, k) && !s.turn.resolving && s.session.gameStarted
    requires |s.selected| == 1
    ensures Inv(Pick(s, k))
  {
    PickSecondCards(s, k);
  }

  /** An accepted pick keeps every invariant. */
  lemma PickValid(s: State, k: nat)
    requires Inv(s) && Selectable(s, k) && !s.turn.resolving && s.session.gameStarted
    ensures Inv(Pick(s, k))
  {
    if s.selected == [] {
      PickFirstValid(s, k);
    } else {
      PickSecondValid(s, k);
    }
  }

  /** `handleClick` keeps every invariant. */
  lemma ClickValid(s: State, raw: string, px: int, py: int)
    requires Inv(s)
    ensures Inv(Click(s, raw, px, py))
  {
    StartValid(s, raw);
    if NameGiven(raw) {
      var s1 := StartTimer(NameCheck(s, raw));
      var hit := HitTest(s1.cards, px, py);
      if !s1.turn.resolving && hit.Some? && Selectable(s1, hit.value) {
        if s1.session.gameOver {
          OverNothingSelectable(s1, hit.value);
        }
        PickValid(s1, hit.value);
      }
    }
  }

  /** The single-flip callback keeps every invariant. */
  lemma SingleFlipValid(s: State)
    requires Inv(s) && s.timers.singleFlip.Armed?
    ensures Inv(SingleFlipFires(s))
  {
    var j := s.selected[0];
    var c := FlipTo(s.cards[j], false);
    CardsUpdate(s.cards, s.dealt, j, c);
    SameFlagsSameCount(s.cards, s.cards[j := c]);
  }

  /** The board after a matching decision: both cards marked, two more matched cards. */
  lemma MarkPairCards(cards: seq<Card>, dealt: seq<int>, f: nat, g: nat)
    requires CardsOk(cards, dealt) && f < |cards| && g < |cards| && f != g
    requires Shown(cards[f]) && Shown(cards[g]) && !cards[f].matched && !cards[g].matched
    ensures var marked := cards[f := cards[f].(matched := true)];
            var r := marked[g := marked[g].(matched := true)];
            && CardsOk(r, dealt) && MatchedCount(r) == MatchedCount(cards) + 2
  {
    var marked := cards[f := cards[f].(matched := true)];
    CardsUpdate(cards, dealt, f, marked[f]);
    MarkCounts(cards, f, marked[f]);
    var r := marked[g := marked[g].(matched := true)];
    CardsUpdate(marked, dealt, g, r[g]);
    MarkCounts(marked, g, r[g]);
  }

  /** A decision on a matching pair keeps every invariant, finishing the game on the last pair. */
  lemma DecisionMatchValid(s: State)
    requires Inv(s) && s.timers.resolve.DecisionArmed?
    requires s.cards[s.timers.resolve.first].value == s.cards[s.timers.resolve.second].value
    ensures Inv(DecisionFires(s))
  {
    MarkPairCards(s.cards, s.dealt, s.timers.resolve.first, s.timers.resolve.second);
    if s.turn.matches + 1 == PairCount {
      DecisionLastValid(s);
    }
  }

  /** The last pair found: the decision finishes the game. */
  lemma DecisionLastValid(s: State)
    requires Inv(s) && s.timers.resolve.DecisionArmed?
    requires s.cards[s.timers.resolve.first].value == s.cards[s.timers.resolve.second].value
    requires s.turn.matches + 1 == PairCount
    ensures Inv(DecisionFires(s)) && DecisionFires(s).session.gameOver
  {
    MarkPairCards(s.cards, s.dealt, s.timers.resolve.first, s.timers.resolve.second);
  }

  /** The board after a mismatching decision: both cards start back down. */
  lemma TurnPairCards(cards: seq<Card>, dealt: seq<int>, f: nat, g: nat)
    requires CardsOk(cards, dealt) && f < |cards| && g < |cards| && f != g
    requires Shown(cards[f]) && Shown(cards[g]) && !cards[f].matched && !cards[g].matched
    ensures var down := cards[f := FlipTo(cards[f], false)];
            var r := down[g := FlipTo(down[g], false)];
            && CardsOk(r, dealt) && MatchedCount(r) == MatchedCount(cards)
            && !r[f].matched && !r[g].matched
  {
    var down := cards[f := FlipTo(cards[f], false)];
    CardsUpdate(cards, dealt, f, down[f]);
    var r := down[g := FlipTo(down[g], false)];
    CardsUpdate(down, dealt, g, r[g]);
    SameFlagsSameCount(cards, r);
  }

  /** A decision on a mismatching pair keeps every invariant. */
  lemma DecisionMismatchValid(s: State)
    requires Inv(s) && s.timers.resolve.DecisionArmed?
    requires s.cards[s.timers.resolve.first].value != s.cards[s.timers.resolve.second].value
    ensures Inv(DecisionFires(s))
  {
    TurnPairCards(s.cards, s.dealt, s.timers.resolve.first, s.timers.resolve.second);
  }

  /** The decision callback keeps every invariant. */
  lemma DecisionValid(s: State)
    requires Inv(s) && s.timers.resolve.DecisionArmed?
    ensures Inv(DecisionFires(s))
  {
    if s.cards[s.timers.resolve.first].value == s.cards[s.timers.resolve.second].value {
      DecisionMatchValid(s);
    } else {
      DecisionMismatchValid(s);
    }
  }

  /** A frame keeps the board invariant, every card's cell and flags, and shown cards shown. */
  lemma FrameCardsOk(cards: seq<Card>, dealt: seq<int>, delta: real, speed: real)
    requires CardsOk(cards, dealt) && delta >= 0.0
    ensures var r := FrameCards(cards, delta, speed);
            && CardsOk(r, dealt) && MatchedCount(r) == MatchedCount(cards)
            && forall k :: 0 <= k < |r| ==>
                 && r[k].matched == cards[k].matched && r[k].targetFaceUp == cards[k].targetFaceUp
                 && SameCell(cards[k], r[k]) && (Shown(cards[k]) ==> Shown(r[k]))
  {
    var r := FrameCards(cards, delta, speed);
    forall k | 0 <= k < |r|
      ensures Placed(r[k], k, Cols) && r[k].value == dealt[k] && WellFormed(r[k])
      ensures r[k].matched ==> Shown(r[k])
      ensures r[k].matched == cards[k].matched && r[k].targetFaceUp == cards[k].targetFaceUp
      ensures SameCell(cards[k], r[k]) && (Shown(cards[k]) ==> Shown(r[k]))
    {
      FrameKeepsCard(cards[k], delta, speed);
      assert Placed(cards[k], k, Cols);
    }
    SameFlagsSameCount(cards, r);
  }

  /** The board after the watchdog forces a returning pair down. */
  lemma ForcePairCards(cards: seq<Card>, dealt: seq<int>, f: nat, g: nat)
    requires CardsOk(cards, dealt) && f < |cards| && g < |cards|
    requires !cards[f].matched && !cards[g].matched
    ensures var down := cards[f := ForceFaceDown(cards[f])];
            var r := down[g := ForceFaceDown(down[g])];
            CardsOk(r, dealt) && MatchedCount(r) == MatchedCount(cards)
  {
    var down := cards[f := ForceFaceDown(cards[f])];
    CardsUpdate(cards, dealt, f, down[f]);
    var r := down[g := ForceFaceDown(down[g])];
    CardsUpdate(down, dealt, g, r[g]);
    SameFlagsSameCount(cards, r);
  }

  /** The pending-unflip watchdog keeps every invariant. */
  lemma WatchdogValid(s: State)
    requires Inv(s)
    ensures Inv(Watchdog(s))
  {
    if s.turn.pendingUnflip && s.turn.pendingPair.Some? {
      ForcePairCards(s.cards, s.dealt, s.turn.pendingPair.value.first, s.turn.pendingPair.value.second);
    }
  }

  /** `update` keeps every invariant. */
  lemma UpdateValid(s: State, delta: real, speed: real)
    requires Inv(s) && delta >= 0.0
    ensures Inv(Update(s, delta, speed))
  {
    FrameCardsOk(s.cards, s.dealt, delta, speed);
    var s0 := s.(cards := FrameCards(s.cards, delta, speed), flipGlow := Decayed(s.flipGlow, GlowRate, delta));
    assert Inv(s0);
    WatchdogValid(s0);
  }

  /** Stamping the frame time keeps every invariant. */
  lemma StampValid(s: State)
    requires Inv(s)
    ensures Inv(Stamp(s)) && FrameDelta(s) >= 0.0
  {
  }

  /** One frame of the loop keeps every invariant: the frame's delta is never negative. */
  lemma TickValid(s: State, speed: real)
    requires Inv(s)
    ensures Inv(Tick(s, speed))
  {
    StampValid(s);
    UpdateValid(Stamp(s), FrameDelta(s), speed);
  }

  /** Time passing keeps every invariant. */
  lemma ElapseValid(s: State, ms: nat)
    requires Inv(s)
    ensures Inv(Elapse(s, ms))
  {
  }

  // ---------------------------------------------------------------------
  // What each operation does

  /** A card no longer in flight and showing its back. */
  predicate Down(c: Card)
  {
    !c.flipping && !c.faceUp
  }

  /** The state the watchdog forces a returning card into. */
  predicate ForcedDown(c: Card)
  {
    !c.faceUp && c.flipProgress == 0.0 && !c.flipping && !c.targetFaceUp
  }

  /** Under the invariant, the game is over exactly when every card is matched. */
  lemma OverIffAllMatched(s: State)
    requires Inv(s)
    ensures s.session.gameOver <==> forall k :: 0 <= k < |s.cards| ==> s.cards[k].matched
  {
    FullCountAllMatched(s.cards);
  }

  /** Under the invariant, each value 1..8 lies on exactly two cards of the board. */
  lemma ValuesTwice(s: State)
    requires Inv(s)
    ensures forall v :: multiset(Values(s.cards))[v] == if 1 <= v <= PairCount then 2 else 0
  {
    assert Values(s.cards) == s.dealt;
  }

  /**
   * A click picks a card only when the name is given, no pair is being
   * resolved and it hits a card that is unmatched, face down, at rest and not
   * yet selected; it then appends exactly that card. In every other case the
   * board, the selection, the counters and the timers are left as they were.
   */
  lemma ClickEffect(s: State, raw: string, px: int, py: int)
    requires InRange(s)
    ensures var r := Click(s, raw, px, py);
            var hit := HitTest(s.cards, px, py);
            var picked := NameGiven(raw) && !s.turn.resolving && hit.Some? && Selectable(s, hit.value);
            && r.best == s.best && r.dealt == s.dealt && r.clock == s.clock
            && r.session.nameReady == NameGiven(raw)
            && (picked ==> r.selected == s.selected + [hit.value])
            && (!picked ==> && r.selected == s.selected && r.cards == s.cards && r.turn == s.turn
                            && r.timers == s.timers && r.flipGlow == s.flipGlow)
  {
    if NameGiven(raw) {
      var s1 := StartTimer(NameCheck(s, raw));
      assert s1.cards == s.cards && s1.selected == s.selected && s1.turn == s.turn;
    }
  }

  /**
   * The second pick: the single-flip callback is cancelled, both cards are
   * settled face up, the move is counted, the board is locked and the
   * decision on exactly these two cards is armed; no other card moves.
   */
  lemma PickSecondEffect(s: State, k: nat)
    requires Inv(s) && Selectable(s, k) && |s.selected| == 1
    ensures var r := Pick(s, k);
            var f := s.selected[0];
            && r.selected == [f, k]
            && r.timers.singleFlip == Idle
            && r.timers.resolve == DecisionArmed(s.clock + DecisionDelayMs, f, k)
            && Shown(r.cards[f]) && Shown(r.cards[k])
            && r.turn.moves == s.turn.moves + 1 && r.turn.matches == s.turn.matches && r.turn.resolving
            && |r.cards| == |s.cards|
            && forall j :: 0 <= j < |s.cards| && j != f && j != k ==> r.cards[j] == s.cards[j]
  {
  }

  /**
   * A decision on a matching pair marks both cards, counts the pair, clears
   * the selection and unlocks the board; the game finishes exactly when that
   * was the last pair, and it was not finished before.
   */
  lemma DecisionMatchEffect(s: State)
    requires Inv(s) && s.timers.resolve.DecisionArmed?
    requires s.cards[s.timers.resolve.first].value == s.cards[s.timers.resolve.second].value
    ensures var r := DecisionFires(s);
            var f, g := s.timers.resolve.first, s.timers.resolve.second;
            && !s.session.gameOver
            && r.cards[f].matched && r.cards[g].matched
            && r.turn.matches == s.turn.matches + 1 && r.turn.moves == s.turn.moves
            && r.selected == [] && !r.turn.resolving && r.timers.resolve == NoDecision
            && (r.session.gameOver <==> r.turn.matches == PairCount)
            && (r.turn.matches == PairCount ==>
                  && r.session.endTime == Some(s.clock)
                  && r.best == MaybeUpdateBest(s.best, Score(s.turn.moves, s.session.lastElapsedMs)))
            && (r.turn.matches != PairCount ==> r.session == s.session && r.best == s.best)
  {
    OverIffAllMatched(s);
    DecisionValid(s);
  }

  /**
   * A decision on a mismatching pair records it as pending with a deadline
   * 700 ms ahead, clears the selection, starts both cards back down, and
   * keeps the board locked.
   */
  lemma DecisionMismatchEffect(s: State)
    requires Inv(s) && s.timers.resolve.DecisionArmed?
    requires s.cards[s.timers.resolve.first].value != s.cards[s.timers.resolve.second].value
    ensures var r := DecisionFires(s);
            var f, g := s.timers.resolve.first, s.timers.resolve.second;
            && r.turn.pendingUnflip && r.turn.pendingPair == Some(Pair(f, g))
            && r.turn.unflipDeadline == s.clock + UnflipWatchdogMs
            && r.selected == [] && r.turn.resolving && r.timers.resolve == NoDecision
            && r.cards[f].flipping && !r.cards[f].targetFaceUp
            && r.cards[g].flipping && !r.cards[g].targetFaceUp
            && r.turn.moves == s.turn.moves && r.turn.matches == s.turn.matches
  {
  }

  /**
   * A frame with a mismatch pending unlocks the board exactly when both
   * cards have come down in this frame's card steps or the deadline has
   * passed; on the deadline path with a card still up, both cards are
   * forced down. While the board stays locked, nothing about the pair moves
   * but the animation.
   */
  lemma UpdateReleases(s: State, delta: real, speed: real)
    requires Inv(s) && delta >= 0.0 && s.turn.pendingUnflip
    ensures var r := Update(s, delta, speed);
            var p := s.turn.pendingPair.value;
            var c := FrameCards(s.cards, delta, speed);
            var down := Down(c[p.first]) && Down(c[p.second]);
            && (!r.turn.resolving <==> down || s.clock >= s.turn.unflipDeadline)
            && (!r.turn.resolving ==> !r.turn.pendingUnflip && r.turn.pendingPair.None?)
            && (!down && s.clock >= s.turn.unflipDeadline ==>
                  ForcedDown(r.cards[p.first]) && ForcedDown(r.cards[p.second]))
            && (r.turn.resolving ==> r.turn == s.turn && r.cards == c)
  {
  }

  /**
   * A frame keeps every card's progress and pulse in [0,1], never raises a
   * pulse or the glow, keeps matched cards matched, and leaves no card at
   * rest showing a face it was turned away from.
   */
  lemma UpdateAnimates(s: State, delta: real, speed: real)
    requires Inv(s) && delta >= 0.0
    ensures var r := Update(s, delta, speed);
            && |r.cards| == |s.cards|
            && 0.0 <= r.flipGlow <= s.flipGlow
            && forall k :: 0 <= k < |r.cards| ==>
                 && 0.0 <= r.cards[k].flipProgress <= 1.0
                 && 0.0 <= r.cards[k].pulse <= s.cards[k].pulse
                 && r.cards[k].matched == s.cards[k].matched
                 && !(!r.cards[k].flipping && !r.cards[k].targetFaceUp && r.cards[k].faceUp)
  {
    var c := FrameCards(s.cards, delta, speed);
    var s0 := s.(cards := c, flipGlow := Decayed(s.flipGlow, GlowRate, delta));
    WatchdogCards(s0);
    var r := Update(s, delta, speed);
    assert r.cards == Watchdog(s0).cards;
    forall k | 0 <= k < |r.cards|
      ensures && 0.0 <= r.cards[k].flipProgress <= 1.0
              && 0.0 <= r.cards[k].pulse <= s.cards[k].pulse
              && r.cards[k].matched == s.cards[k].matched
              && !(!r.cards[k].flipping && !r.cards[k].targetFaceUp && r.cards[k].faceUp)
    {
      assert WellFormed(s.cards[k]);
      FrameKeepsCard(s.cards[k], delta, speed);
    }
  }

  /** The watchdog either leaves a card as it is or forces it down. */
  lemma WatchdogCards(s: State)
    requires InRange(s)
    ensures |Watchdog(s).cards| == |s.cards|
    ensures forall k :: 0 <= k < |s.cards| ==>
              Watchdog(s).cards[k] == s.cards[k] || Watchdog(s).cards[k] == ForceFaceDown(s.cards[k])
    ensures forall k :: 0 <= k < |s.cards| && Watchdog(s).cards[k] != s.cards[k] ==>
              s.turn.pendingPair.Some? && (k == s.turn.pendingPair.value.first || k == s.turn.pendingPair.value.second)
  {
  }

  /**
   * The single-flip callback turns the lone selected card back and empties
   * the selection exactly when one unmatched card is selected; otherwise it
   * only forgets that it was pending.
   */
  lemma SingleFlipEffect(s: State)
    requires InRange(s)
    ensures var r := SingleFlipFires(s);
            var lone := |s.selected| == 1 && !s.cards[s.selected[0]].matched;
            && r.timers.singleFlip == Idle && r.timers.resolve == s.timers.resolve
            && r.turn == s.turn && r.session == s.session && |r.cards| == |s.cards|
            && (lone ==> && r.selected == []
                         && r.cards[s.selected[0]].flipping && !r.cards[s.selected[0]].targetFaceUp
                         && forall j :: 0 <= j < |s.cards| && j != s.selected[0] ==> r.cards[j] == s.cards[j])
            && (!lone ==> r.selected == s.selected && r.cards == s.cards)
  {
  }

  /** `finishGame` runs once: a second call changes nothing, and the first stamps the end and offers the score. */
  lemma FinishOnce(s: State)
    ensures Finish(s).session.gameOver && Finish(Finish(s)) == Finish(s)
    ensures s.session.gameOver ==> Finish(s) == s
    ensures !s.session.gameOver ==>
              && Finish(s).session.endTime == Some(s.clock)
              && Finish(s).best == MaybeUpdateBest(s.best, Score(s.turn.moves, s.session.lastElapsedMs))
              && Finish(s).cards == s.cards && Finish(s).turn == s.turn
  {
  }

  /** `startTimerIfNeeded` sets the start time only on a session not yet started and not over, to the current time. */
  lemma StartTimerOnce(s: State)
    ensures StartTimer(StartTimer(s)) == StartTimer(s)
    ensures StartTimer(s).session.gameStarted || s.session.gameOver
    ensures StartTimer(s).session.startTime != s.session.startTime ==>
              !s.session.gameStarted && !s.session.gameOver && StartTimer(s).session.startTime == Some(s.clock)
    ensures StartTimer(s).cards == s.cards && StartTimer(s).turn == s.turn && StartTimer(s).selected == s.selected
  {
  }

  /** The elapsed time shown is never negative. */
  lemma ElapsedNonNegative(s: State)
    requires Inv(s)
    ensures ElapsedMs(s.session, s.clock) >= 0
  {
  }

  // ---------------------------------------------------------------------
  // Runs: what the environment may do between two deals

  /**
   * Everything that can happen to the game between two resets: a click on
   * the board, typing in the name field, the Enter key on it, one of the two callbacks
   * coming due, an animation frame, or time passing.
   */
  datatype Event =
    | ClickAt(raw: string, px: int, py: int)
    | NameTyped(raw: string)
    | NameEntered(raw: string)
    | SingleFlipTimeout
    | DecisionTimeout
    | Frame(speed: real)
    | Wait(ms: nat)

  /** A callback runs only while it is pending and once its time has come. */
  predicate Due(s: State, e: Event)
  {
    match e
    case SingleFlipTimeout => s.timers.singleFlip.Armed? && s.clock >= s.timers.singleFlip.due
    case DecisionTimeout => s.timers.resolve.DecisionArmed? && s.clock >= s.timers.resolve.due
    case _ => true
  }

  /** The effect of one event; a callback that is not due does not run. */
  function Step(s: State, e: Event): State
    requires InRange(s)
  {
    if !Due(s, e) then s
    else match e
      case ClickAt(raw, px, py) => Click(s, raw, px, py)
      case NameTyped(raw) => NameCheck(s, raw)
      case NameEntered(raw) => SubmitName(s, raw)
      case SingleFlipTimeout => SingleFlipFires(s)
      case DecisionTimeout => DecisionFires(s)
      case Frame(speed) => Tick(s, speed)
      case Wait(ms) => Elapse(s, ms)
  }

  /** Every event keeps every invariant. */
  lemma StepValid(s: State, e: Event)
    requires Inv(s)
    ensures Inv(Step(s, e))
  {
    if Due(s, e) {
      match e
      case ClickAt(raw, px, py) => ClickValid(s, raw, px, py);
      case NameTyped(raw) => StartValid(s, raw);
      case NameEntered(raw) => StartValid(s, raw);
      case SingleFlipTimeout => SingleFlipValid(s);
      case DecisionTimeout => DecisionValid(s);
      case Frame(speed) => TickValid(s, speed);
      case Wait(ms) => ElapseValid(s, ms);
    }
  }

  /** The state after a sequence of events. */
  function Run(s: State, es: seq<Event>): State
    requires Inv(s)
    decreases |es|
  {
    if es == [] then s
    else
      StepValid(s, es[0]);
      Run(Step(s, es[0]), es[1..])
  }

  /** Every reachable state keeps every invariant. */
  lemma {:induction false} RunValid(s: State, es: seq<Event>)
    requires Inv(s)
    ensures Inv(Run(s, es))
    decreases |es|
  {
    if es != [] {
      StepValid(s, es[0]);
      RunValid(Step(s, es[0]), es[1..]);
    }
  }

  /** What a matched card keeps: its cell and face value, matched, resting face up; only its pulse may still fade. */
  predicate KeptMatched(was: Card, now: Card)
  {
    SameCell(was, now) && now.matched && Shown(now)
  }

  /** No event unmatches or turns a matched card. */
  lemma StepKeepsMatched(s: State, e: Event, k: nat)
    requires Inv(s) && k < |s.cards| && s.cards[k].matched
    ensures |Step(s, e).cards| == |s.cards| && KeptMatched(s.cards[k], Step(s, e).cards[k])
  {
    if Due(s, e) {
      match e
      case ClickAt(raw, px, py) =>
        ClickKeepsMatched(s, raw, px, py, k);
      case NameTyped(raw) =>
      case NameEntered(raw) =>
      case SingleFlipTimeout =>
        SingleFlipEffect(s);
      case DecisionTimeout =>
        DecisionTouchesPair(s);
      case Frame(speed) =>
        TickKeepsMatched(s, speed, k);
      case Wait(ms) =>
    }
  }

  /** The decision callback changes no card but the two it captured. */
  lemma DecisionTouchesPair(s: State)
    requires InRange(s) && s.timers.resolve.DecisionArmed?
    ensures |DecisionFires(s).cards| == |s.cards|
    ensures forall j :: 0 <= j < |s.cards| && j != s.timers.resolve.first && j != s.timers.resolve.second ==>
              DecisionFires(s).cards[j] == s.cards[j]
  {
  }

  lemma ClickKeepsMatched(s: State, raw: string, px: int, py: int, k: nat)
    requires Inv(s) && k < |s.cards| && s.cards[k].matched
    ensures |Click(s, raw, px, py).cards| == |s.cards| && Click(s, raw, px, py).cards[k] == s.cards[k]
  {
    if NameGiven(raw) {
      var s1 := StartTimer(NameCheck(s, raw));
      var hit := HitTest(s1.cards, px, py);
      if !s1.turn.resolving && hit.Some? && Selectable(s1, hit.value) && |s1.selected| == 1 {
        PickSecondEffect(s1, hit.value);
      }
    }
  }

  lemma UpdateKeepsMatched(s: State, delta: real, speed: real, k: nat)
    requires Inv(s) && delta >= 0.0 && k < |s.cards| && s.cards[k].matched
    ensures |Update(s, delta, speed).cards| == |s.cards| && KeptMatched(s.cards[k], Update(s, delta, speed).cards[k])
  {
    FrameCardsOk(s.cards, s.dealt, delta, speed);
    var s1 := s.(cards := FrameCards(s.cards, delta, speed), flipGlow := Decayed(s.flipGlow, GlowRate, delta));
    WatchdogCards(s1);
  }

  lemma TickKeepsMatched(s: State, speed: real, k: nat)
    requires Inv(s) && k < |s.cards| && s.cards[k].matched
    ensures |Tick(s, speed).cards| == |s.cards| && KeptMatched(s.cards[k], Tick(s, speed).cards[k])
  {
    StampValid(s);
    UpdateKeepsMatched(Stamp(s), FrameDelta(s), speed, k);
  }

  /**
   * Matched is terminal: after any sequence of events a card that was
   * matched is still matched, in its cell and resting face up.
   */
  lemma {:induction false} RunKeepsMatched(s: State, es: seq<Event>, k: nat)
    requires Inv(s) && k < |s.cards| && s.cards[k].matched
    ensures |Run(s, es).cards| == |s.cards| && KeptMatched(s.cards[k], Run(s, es).cards[k])
    decreases |es|
  {
    if es != [] {
      StepValid(s, es[0]);
      StepKeepsMatched(s, es[0], k);
      RunKeepsMatched(Step(s, es[0]), es[1..], k);
    }
  }

  /** A finished game stays finished: no event changes its end, its moves or the stored best. */
  lemma StepKeepsResult(s: State, e: Event)
    requires Inv(s) && s.session.gameOver
    ensures var r := Step(s, e);
            && r.session.gameOver && r.session.endTime == s.session.endTime
            && r.turn.moves == s.turn.moves && r.best == s.best
  {
    OverIffAllMatched(s);
    if Due(s, e) && e.ClickAt? && NameGiven(e.raw) {
      var s1 := StartTimer(NameCheck(s, e.raw));
      var hit := HitTest(s1.cards, e.px, e.py);
      if hit.Some? {
        OverNothingSelectable(s1, hit.value);
      }
    }
  }

  /** Completion happens once: after any sequence of events a finished game keeps its result. */
  lemma {:induction false} RunKeepsResult(s: State, es: seq<Event>)
    requires Inv(s) && s.session.gameOver
    ensures var r := Run(s, es);
            && r.session.gameOver && r.session.endTime == s.session.endTime
            && r.turn.moves == s.turn.moves && r.best == s.best
    decreases |es|
  {
    if es != [] {
      StepValid(s, es[0]);
      StepKeepsResult(s, es[0]);
      RunKeepsResult(Step(s, es[0]), es[1..]);
    }
  }

  /** Once the clock has started, no event moves the start time. */
  lemma StepKeepsStart(s: State, e: Event)
    requires Inv(s) && s.session.gameStarted
    ensures Step(s, e).session.startTime == s.session.startTime
  {
  }

  /**
   * The start time is set at most once per deal: once set, it survives any
   * sequence of events; and it is never set on a finished game.
   */
  lemma {:induction false} RunKeepsStart(s: State, es: seq<Event>)
    requires Inv(s) && (s.session.gameStarted || s.session.gameOver)
    ensures Run(s, es).session.startTime == s.session.startTime
    decreases |es|
  {
    if es != [] {
      StepValid(s, es[0]);
      StepKeepsStart(s, es[0]);
      RunKeepsStart(Step(s, es[0]), es[1..]);
    }
  }
}
