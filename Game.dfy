/**
 * The game of main.js as the program runs it: the module-level variables
 * as the fields of one object, updated in place by `resetGame`,
 * `handleClick`, the two `setTimeout` callbacks (explicit "fire" methods the
 * environment calls once a callback is due), `update`, `finishGame`,
 * `startTimerIfNeeded` and the frame `loop`. Each method is specified by the
 * transition of module Play it performs, and keeps `Valid()`, the invariant
 * of Play.
 *
 * The variables are grouped the way Play's `State` groups them: the turn
 * (`moves`, `matches`, `resolving`, `pendingUnflip`, `pendingPair`,
 * `unflipDeadline`), the two timers, and the session timing and flags.
 */
module Game {
  import opened Options
  import opened Deck
  import opened Animation
  import opened BestScore
  import opened PlayerName
  import opened Play

  /** `cards = buildDeck()` on the 4x4 board: the dealt deck is the layout of the shuffled pair list. */
  method Deal(js: seq<nat>) returns (deck: seq<Card>)
    requires SwapOracle(js, Rows * Cols)
    ensures deck == DeckOf(Shuffled(PairList(PairCount), js), Cols)
  {
    ghost var vals := Shuffled(PairList(PairCount), js);
    ShuffledPermutes(PairList(PairCount), js);
    assert Rows * Cols / 2 == PairCount && |vals| == Rows * Cols;
    deck := BuildDeck(Rows, Cols, js);
    DealtIsDeckOf(deck, Cols, vals);
  }

  class MemoryGame {
    var cards: seq<Card>
    var selected: seq<nat>
    var turn: Turn
    var timers: Timers
    var session: Session
    var flipGlow: real
    /** `performance.now()`, in whole milliseconds. */
    var clock: nat
    /** The local store entry under the board's best-score key. */
    var bestStore: Stored
    /** The values as dealt by the last reset. */
    ghost var dealt: seq<int>

    ghost function Model(): State
      reads this
    {
      State(cards, selected, turn, timers, session, flipGlow, clock, bestStore, dealt)
    }

    ghost predicate Valid()
      reads this
    {
      Inv(Model())
    }

    /**
     * Page load (main.js:50-75, 505): the variables take their declared
     * values at time `now`, with the store holding `stored`, and `resetGame`
     * deals the first board with the shuffle choices `js`.
     */
    constructor (js: seq<nat>, raw: string, now: nat, stored: Stored)
      requires SwapOracle(js, Rows * Cols)
      ensures Model() == Reset(Boot(now, stored), js, raw) && Valid()
    {
      flipGlow := 0.0;
      clock := now;
      bestStore := stored;
      var deck := Deal(js);
      cards := deck;
      selected := [];
      turn := Turn(0, 0, false, false, None, 0);
      timers := Timers(Idle, NoDecision);
      var ready := NameReady(raw);
      session := Session(None, None, None, 0, false, false, ready);
      dealt := Shuffled(PairList(PairCount), js);
      ResetValid(Boot(now, stored), js, raw);
    }

    /** Whether the name field holds a name: its trimmed text is not empty (main.js:592-593). */
    static method NameReady(raw: string) returns (ok: bool)
      ensures ok == NameGiven(raw)
    {
      var t := Trim(raw);
      NameGivenIffTrimmed(raw);
      ok := t != [];
    }

    /** `resetGame` (main.js:159-189) with the shuffle choices `js` and the name field holding `raw`. */
    method ResetGame(js: seq<nat>, raw: string)
      requires Valid() && SwapOracle(js, Rows * Cols)
      modifies this
      ensures Model() == Reset(old(Model()), js, raw) && Valid()
    {
      ghost var s := Model();
      cards := Deal(js);
      selected := [];
      turn := Turn(0, 0, false, false, None, 0);
      timers := Timers(Idle, NoDecision);
      session := Session(None, None, None, 0, false, false, false);
      dealt := Shuffled(PairList(PairCount), js);
      var _ := EnsurePlayerName(raw);
      assert Model() == Reset(s, js, raw);
      ResetValid(s, js, raw);
    }

    /** `ensurePlayerName` (main.js:591-604): record and report whether a name is given. */
    method EnsurePlayerName(raw: string) returns (ok: bool)
      modifies this
      ensures ok == NameGiven(raw)
      ensures Model() == NameCheck(old(Model()), raw)
    {
      ok := NameReady(raw);
      session := session.(nameReady := ok);
    }

    /** `startTimerIfNeeded` (main.js:606-611). */
    method StartTimerIfNeeded()
      modifies this
      ensures Model() == StartTimer(old(Model()))
    {
      if session.gameStarted || session.gameOver {
        return;
      }
      session := session.(startTime := Some(clock), lastTime := None, gameStarted := true);
    }

    /** The Enter key on the name field (main.js:469-475). */
    method EnterName(raw: string)
      requires Valid()
      modifies this
      ensures Model() == SubmitName(old(Model()), raw) && Valid()
    {
      ghost var s := Model();
      StartValid(s, raw);
      var ok := EnsurePlayerName(raw);
      if ok {
        StartTimerIfNeeded();
      }
    }

    /** `handleClick` (main.js:201-269) for a click at board point (px, py), the name field holding `raw`. */
    method HandleClick(raw: string, px: int, py: int)
      requires Valid()
      modifies this
      ensures Model() == Click(old(Model()), raw, px, py) && Valid()
    {
      ghost var s := Model();
      ClickValid(s, raw, px, py);
      var ok := EnsurePlayerName(raw);
      if !ok {
        return;
      }
      StartTimerIfNeeded();
      if turn.resolving {
        return;
      }
      var hit := HitTest(cards, px, py);
      if hit.None? {
        return;
      }
      var k := hit.value;
      if cards[k].matched || cards[k].faceUp || cards[k].flipping || k in selected {
        return;
      }
      PickCard(k);
    }

    /** The accepted pick of card `k` (main.js:217-268). */
    method PickCard(k: nat)
      requires k < |cards| && InRange(Model())
      modifies this
      ensures Model() == Pick(old(Model()), k)
    {
      cards := cards[k := FlipTo(cards[k], true)];
      flipGlow := 1.0;
      selected := selected + [k];
      if |selected| == 1 {
        timers := timers.(singleFlip := Armed(clock + SingleFlipDelayMs));
      }
      if |selected| == 2 {
        var first, second := selected[0], selected[1];
        var up := cards[first := ForceFaceUp(cards[first])];
        cards := up[second := ForceFaceUp(up[second])];
        turn := turn.(moves := turn.moves + 1, resolving := true);
        timers := Timers(Idle, DecisionArmed(clock + DecisionDelayMs, first, second));
      }
    }

    /** The single-flip callback (main.js:225-231), run once it is due. */
    method FireSingleFlip()
      requires Valid() && timers.singleFlip.Armed? && clock >= timers.singleFlip.due
      modifies this
      ensures Model() == SingleFlipFires(old(Model())) && Valid()
    {
      SingleFlipValid(Model());
      if |selected| == 1 && !cards[selected[0]].matched {
        var only := selected[0];
        selected := [];
        cards := cards[only := FlipTo(cards[only], false)];
      }
      timers := timers.(singleFlip := Idle);
    }

    /** `finishGame` (main.js:562-570). */
    method FinishGame()
      modifies this
      ensures Model() == Finish(old(Model()))
    {
      if session.gameOver {
        return;
      }
      session := session.(gameOver := true, endTime := Some(clock));
      bestStore := MaybeUpdateBest(bestStore, Score(turn.moves, session.lastElapsedMs));
    }

    /** The decision callback (main.js:247-267), run once it is due, on the pair it captured. */
    method FireDecision()
      requires Valid() && timers.resolve.DecisionArmed? && clock >= timers.resolve.due
      modifies this
      ensures Model() == DecisionFires(old(Model())) && Valid()
    {
      DecisionValid(Model());
      var first, second := timers.resolve.first, timers.resolve.second;
      timers := timers.(resolve := NoDecision);
      if cards[first].value == cards[second].value {
        var marked := cards[first := cards[first].(matched := true)];
        cards := marked[second := marked[second].(matched := true)];
        turn := turn.(matches := turn.matches + 1, resolving := false);
        selected := [];
        if turn.matches == PairCount {
          FinishGame();
        }
      } else {
        turn := turn.(pendingUnflip := true, unflipDeadline := clock + UnflipWatchdogMs,
                      pendingPair := Some(Pair(first, second)));
        selected := [];
        var down := cards[first := FlipTo(cards[first], false)];
        cards := down[second := FlipTo(down[second], false)];
      }
    }

    /** The first card loop of `update` (main.js:274-286): every flipping card moves toward its target. */
    method AdvanceAll(delta: real, speed: real)
      modifies this`cards
      ensures |cards| == |old(cards)|
      ensures forall k :: 0 <= k < |cards| ==> cards[k] == Advance(old(cards)[k], delta, speed)
    {
      var i := 0;
      while i < |cards|
        invariant 0 <= i <= |cards| == |old(cards)|
        invariant forall k :: 0 <= k < i ==> cards[k] == Advance(old(cards)[k], delta, speed)
        invariant forall k :: i <= k < |cards| ==> cards[k] == old(cards)[k]
      {
        cards := cards[i := Advance(cards[i], delta, speed)];
        i := i + 1;
      }
    }

    /** The second card loop of `update` (main.js:288-292): every pulse fades. */
    method DecayAll(delta: real)
      modifies this`cards
      ensures |cards| == |old(cards)|
      ensures forall k :: 0 <= k < |cards| ==> cards[k] == DecayPulse(old(cards)[k], delta)
    {
      var i := 0;
      while i < |cards|
        invariant 0 <= i <= |cards| == |old(cards)|
        invariant forall k :: 0 <= k < i ==> cards[k] == DecayPulse(old(cards)[k], delta)
        invariant forall k :: i <= k < |cards| ==> cards[k] == old(cards)[k]
      {
        cards := cards[i := DecayPulse(cards[i], delta)];
        i := i + 1;
      }
    }

    /** The third card loop of `update` (main.js:298-303): stale face-up cards snap down. */
    method SnapAll()
      modifies this`cards
      ensures |cards| == |old(cards)|
      ensures forall k :: 0 <= k < |cards| ==> cards[k] == Snap(old(cards)[k])
    {
      var i := 0;
      while i < |cards|
        invariant 0 <= i <= |cards| == |old(cards)|
        invariant forall k :: 0 <= k < i ==> cards[k] == Snap(old(cards)[k])
        invariant forall k :: i <= k < |cards| ==> cards[k] == old(cards)[k]
      {
        cards := cards[i := Snap(cards[i])];
        i := i + 1;
      }
    }

    /** The three card loops of `update` (main.js:273-303) and the glow decay between them. */
    method AnimateCards(delta: real, speed: real)
      modifies this
      ensures cards == FrameCards(old(cards), delta, speed)
      ensures flipGlow == Decayed(old(flipGlow), GlowRate, delta)
      ensures Model() == old(Model()).(cards := cards, flipGlow := flipGlow)
    {
      AdvanceAll(delta, speed);
      DecayAll(delta);
      flipGlow := Decayed(flipGlow, GlowRate, delta);
      SnapAll();
    }

    /** `update(delta)` (main.js:271-332) at flip speed `speed`. */
    method Update(delta: real, speed: real)
      requires Valid()
      modifies this
      ensures Model() == Play.Update(old(Model()), delta, speed)
      ensures delta >= 0.0 ==> Valid()
    {
      ghost var s := Model();
      if delta >= 0.0 {
        UpdateValid(s, delta, speed);
      }
      AnimateCards(delta, speed);
      if turn.pendingUnflip && turn.pendingPair.Some? {
        var p := turn.pendingPair.value;
        var done := !cards[p.first].flipping && !cards[p.first].faceUp
                    && !cards[p.second].flipping && !cards[p.second].faceUp;
        if done {
          turn := turn.(pendingUnflip := false, resolving := false, pendingPair := None);
        } else if turn.unflipDeadline != 0 && clock >= turn.unflipDeadline {
          var down := cards[p.first := ForceFaceDown(cards[p.first])];
          cards := down[p.second := ForceFaceDown(down[p.second])];
          turn := turn.(pendingUnflip := false, resolving := false, pendingPair := None);
        }
      }
      session := session.(lastElapsedMs := ElapsedMs(session, clock));
    }

    /** One run of `loop` (main.js:454-463), the frame timestamp being the clock. */
    method Loop(speed: real)
      requires Valid()
      modifies this
      ensures Model() == Play.Tick(old(Model()), speed) && Valid()
    {
      ghost var s := Model();
      var last := if session.lastTime.None? then clock else session.lastTime.value;
      var delta := (clock - last) as real / 1000.0;
      session := session.(lastTime := Some(clock));
      assert delta == FrameDelta(s) && Model() == Stamp(s);
      StampValid(s);
      Update(delta, speed);
    }

    /** Time passes: the clock moves `ms` milliseconds ahead. */
    method PassTime(ms: nat)
      requires Valid()
      modifies this
      ensures Model() == Elapse(old(Model()), ms) && Valid()
    {
      ElapseValid(Model(), ms);
      clock := clock + ms;
    }
  }
}
