# Memory card game — a Dafny model

`main.js` runs a 4x4 memory game on a canvas. Cards are dealt face down from
the values 1..8, each value twice, shuffled. The player turns two cards by
clicking them. A match stays face up. A mismatch turns back down after a
short delay. A frame loop animates the flips, and a watchdog releases the
board if a returning pair gets stuck. The game is over once all eight pairs
are found, and the result is offered to a locally stored best score.

The model has seven modules:

- `Options` — the `Option` datatype.
- `Deck` — the card record, the layout constants, the pair list, the
  Fisher–Yates `shuffle` (an in-place swap loop on an `array<int>`, with the
  random indices given as an oracle `js`), `buildDeck` and hit testing.
- `Animation` — `flipTo`, `forceFaceUp`, and each card step of the
  three loops in `update`: advance and clamp, fade the pulse, snap stale
  faces down.
- `BestScore` — the strictly-better comparison and `maybeUpdateBest`, on the
  store entry as a value: absent, unparsable, or parsed.
- `PlayerName` — the non-blank check of `ensurePlayerName` and the
  `getPlayerName` sanitiser.
- `Play` — the game as a state machine on values:
  - a `State` record of the module-level variables;
  - the invariant `Inv`;
  - one function per operation;
  - lemmas stating what each operation guarantees, and what holds over any
    run of events between two resets.
- `Game` — the class `MemoryGame`. Its fields are the module-level
  variables. Its methods update them in place, as `main.js` does, and each
  method is specified by the `Play` function it performs. The entry points
  (the constructor, `ResetGame`, `EnterName`, `HandleClick`, the two fire
  methods, `Update`, `Loop` and `PassTime`) also keep `Valid()`. The steps
  they are built from (`PickCard`, `FinishGame`, `AnimateCards`, `AdvanceAll`,
  `DecayAll`, `SnapAll`, `EnsurePlayerName` and `StartTimerIfNeeded`) state
  only their effect on the fields.

How the program's inputs are modelled:

- Time is an integer millisecond clock (the field `clock`), advanced by
  `PassTime`. Inside `loop`, the frame timestamp is taken to equal the clock.
- The two `setTimeout` callbacks are the methods `FireSingleFlip` and
  `FireDecision`, which the environment may call once the callback is due.
- A card reference held in `selected`, in `pendingPair` or in a timer's
  closure is the card's board index. Ids equal indices, and the deck is never
  reordered.
- JavaScript truthiness is kept as written. A `startTime` of 0 reads as
  unset. The watchdog only checks a deadline that is non-zero.

Notes on the source:

- `finishGame` records `lastElapsedMs`, the time computed by the previous
  `update`, not `endTime - startTime`.
- `resetGame` clears `nameReady` and then ends with `ensurePlayerName`, so a
  name already typed stays ready.
- `getPlayerName` collapses whitespace runs before dropping disallowed
  characters, so a double space can survive (`"a ! b"` becomes `"a  b"`).

## Model

| member | source | states |
|---|---|---|
| Deck.PairList | main.js:84-87 | the list pushed before shuffling has length 2·n |
| Deck.PairListCounts | main.js:84-87 | every value 1..n occurs exactly twice in the pair list, and no other value occurs |
| Deck.BuildValues | main.js:84-87 | the push loop yields the pair list, each value 1..n twice |
| Deck.Swap | main.js:79 | the swap exchanges positions i and j and leaves every other position alone |
| Deck.SwapPermutes | main.js:79 | a swap leaves the multiset of values unchanged |
| Deck.ShuffleDown | main.js:76-81 | defines the swap loop from index i down to 1, each step swapping with the oracle's index |
| Deck.Shuffled | main.js:76-81 | defines `shuffle` on a whole list as the swap loop from the last index down |
| Deck.ShuffleDownPermutes | main.js:76-81 | the swaps from i down to 1 keep the length and the multiset of values |
| Deck.ShuffledPermutes | main.js:76-81 | the shuffled list is a permutation of its input |
| Deck.Shuffle | main.js:76-81 | the in-place loop leaves the array equal to the shuffled list, a permutation of the old contents |
| Deck.DealtCounts | main.js:83-118 | a deck laid out from the shuffled pair list holds each value 1..n on exactly two cards |
| Deck.BuildDeck | main.js:83-118 | rows·cols cards, card k has id k, cell (k / cols, k % cols), layout position, shuffled value k, face down and unmatched; each value 1..n lies on exactly two cards |
| Deck.LayOut | main.js:90-117 | the nested loop lays the values out row by row, one fresh card per cell |
| Deck.LayoutX | main.js:94-95 | defines a card's left edge: padding plus the column times card width plus gap |
| Deck.LayoutY | main.js:96-97 | defines a card's top edge: padding plus the row times card height plus gap |
| Deck.NewCard | main.js:98-113 | defines the card pushed for a cell: its id, cell, layout, value, and every flag and level at rest |
| Deck.DeckOf | main.js:90-117 | the deck for a value list has one fresh card per value, card k in cell k of the row-major grid |
| Deck.DealtIsDeckOf | main.js:90-117 | any deck with card k dealt in cell k from the values is exactly that layout |
| Deck.HitFrom | main.js:207-213 | the search from a position returns the first card at or after it whose inclusive rectangle holds the point, or none |
| Deck.Contains | main.js:209-212 | defines the inclusive rectangle test of the click |
| Deck.HitTest | main.js:207-213 | `cards.find` returns the first card whose rectangle holds the point; none means no card does |
| Deck.HitInside | main.js:207-213 | on the laid-out board, a point inside card k's rectangle hits card k |
| Animation.FlipTo | main.js:138-142 | targets the given face, starts flipping, pulse 1; progress, face and cell unchanged |
| Animation.ForceFaceUp | main.js:144-149 | settles the card face up with progress 1, not flipping, targeting up; pulse and cell unchanged |
| Animation.ForceFaceDown | main.js:315-320 | settles the card face down with progress 0, not flipping, targeting down |
| Animation.Advance | main.js:273-286 | a flipping card moves speed·delta toward its target; at or past 1 it stops face up at 1, at or below 0 it stops face down at 0, otherwise it keeps flipping at the new progress; a card at rest is untouched |
| Animation.Decayed | main.js:289-296 | a positive level falls by delta·rate but not below 0; a non-positive level is left alone |
| Animation.DecayPulse | main.js:288-292 | only the pulse changes, by the decay at rate 3.5; it never grows and stays in [0,1] |
| Animation.Snap | main.js:298-303 | a card at rest that targets down but shows its face is turned down at progress 0, exactly that case changes, and no stale face remains |
| Animation.FrameCard | main.js:273-303 | defines one card's share of a frame: advance, then fade the pulse, then snap |
| Animation.FrameKeepsCard | main.js:273-303 | one frame keeps a card's progress and pulse in [0,1], its cell, matched and target flags; the pulse does not grow; a card at rest targeting down ends face down |
| BestScore.Overwrites | main.js:542-559 | defines when the entry is overwritten: absent, unparsable, or beaten by the result |
| BestScore.Better | main.js:549-551 | defines "strictly better": less time, or equal time in fewer moves |
| BestScore.MaybeUpdateBest | main.js:539-560 | the entry is overwritten with the current result exactly when it is absent, unparsable, or the result is strictly better; afterwards neither the old best nor the result beats it |
| BestScore.BetterIsStrictOrder | main.js:549-551 | "strictly better" is irreflexive, asymmetric and transitive |
| BestScore.BetterIsTotal | main.js:549-551 | of two different results one is strictly better |
| BestScore.UpdateIdempotent | main.js:539-560 | offering the same result twice leaves the same entry as offering it once |
| BestScore.SaveAllKeepsMinimum | main.js:539-560 | after a series of games the entry holds one of the results, and none of them, nor the earlier record, is strictly better |
| PlayerName.IsSpace | main.js:585-586 | defines the whitespace class `\s`, which `trim` also removes |
| PlayerName.Kept | main.js:587 | defines the characters the filter keeps: word characters, whitespace, '-' and Hangul syllables |
| PlayerName.TrimStart | main.js:585 | removes exactly the leading whitespace |
| PlayerName.TrimEnd | main.js:585 | removes exactly the trailing whitespace |
| PlayerName.Trim | main.js:585 | the trimmed text is the stretch of the input between its leading and its trailing whitespace, and neither starts nor ends with whitespace |
| PlayerName.Collapse | main.js:586 | any whitespace left is a plain space, no two whitespace characters are adjacent, and a leading non-space character is kept |
| PlayerName.CollapseRun | main.js:586 | each maximal whitespace run becomes exactly one plain space: a run between two non-space boundaries is replaced by `' '` and the texts on either side collapse on their own |
| PlayerName.CollapseKeepsVisible | main.js:586 | collapsing keeps every non-whitespace character of the text, in order, and adds none |
| PlayerName.Filter | main.js:587 | keeps only the word characters, whitespace, '-' and Hangul syllables; a text made only of those is unchanged; a single character is kept exactly when allowed |
| PlayerName.FilterAppend | main.js:587 | filtering a concatenation filters each part, so every allowed character survives, in order |
| PlayerName.Visible | main.js:586 | defines the non-whitespace characters of a text, in order |
| PlayerName.Sanitised | main.js:585-587 | defines the sanitised text as trim, then collapse, then filter |
| PlayerName.SanitisedChars | main.js:585-587 | after sanitising, the only whitespace left is the plain space |
| PlayerName.NameGiven | main.js:592-593 | defines a name as given when some character of the field is not whitespace |
| PlayerName.NameGivenIffTrimmed | main.js:592-593 | the trimmed name is non-empty exactly when some character is not whitespace |
| PlayerName.GetPlayerName | main.js:584-589 | 1 to 12 characters from words, plain spaces, '-' and Hangul; the sanitised text itself when it has at most 12 characters, exactly its first 12 characters when longer, or "Player" when nothing survives |
| PlayerName.NoSpaceUntouched | main.js:585-586 | text without whitespace passes trimming and collapsing unchanged |
| PlayerName.CleanNameKept | main.js:584-589 | a name of at most 12 word characters, dashes and Hangul comes back unchanged |
| Play.Boot | main.js:50-75 | defines the module-level state as declared, before the first reset |
| Play.Reset | main.js:159-189 | defines the state part of `resetGame`: a new deal, every counter, flag and timer at its initial value, then the name check |
| Play.NameCheck | main.js:591-604 | defines `ensurePlayerName`: the name is ready exactly when the field is not blank |
| Play.StartTimer | main.js:606-611 | defines `startTimerIfNeeded`: a session neither started nor over starts at the current time |
| Play.SubmitName | main.js:469-475 | defines the Enter key: the name check, then the start of the clock if the name is given |
| Play.Selectable | main.js:214-215 | defines the card checks of a click: on the board, unmatched, face down, not flipping, not yet selected |
| Play.Pick | main.js:217-268 | defines an accepted pick: the first arms the single-flip callback, the second forces both cards up, counts the move and arms the decision |
| Play.Click | main.js:201-269 | defines `handleClick`: the name check, the start of the clock, the resolving lock, the hit test and the card checks, then the pick |
| Play.SingleFlipFires | main.js:225-231 | defines the single-flip callback: a lone unmatched selection is turned back and cleared |
| Play.DecisionFires | main.js:247-267 | defines the decision callback: a match marks the pair and may finish the game; a mismatch starts both back down with the watchdog deadline |
| Play.Finish | main.js:562-570 | defines `finishGame`: once only, set game over, stamp the end and offer the result as best |
| Play.FrameCards | main.js:273-303 | defines the three card loops of `update` applied to every card |
| Play.Watchdog | main.js:305-325 | defines the pending-unflip watchdog: release once both cards are down, force them down once the deadline has passed |
| Play.ElapsedMs | main.js:327-329 | defines the elapsed time of `update`: end or now minus start, 0 while the start is unset |
| Play.Update | main.js:271-332 | defines `update`: card loops, glow fade, watchdog, elapsed time |
| Play.FrameDelta | main.js:455-458 | defines the frame delta in seconds, 0 on the first frame after a start |
| Play.Stamp | main.js:459 | defines the recording of the frame time as `lastTime` |
| Play.Tick | main.js:454-463 | defines one run of `loop`: frame delta from the last timestamp, stamp, then `update` |
| Play.ResetValid | main.js:159-189 | a reset deals 16 unmatched face-down cards in row-major order from the shuffled pair list, clears every counter, flag and timer, sets the name flag by the name field, and establishes the invariant |
| Play.FreshDeal | main.js:160 | the deal of a reset is a sane board of 16 unmatched cards in row-major order, the shuffled pair list holding each of 1..8 twice |
| Play.ResetForgets | main.js:159-189 | nothing of the previous game survives a reset except the glow, the clock and the stored best |
| Play.StartValid | main.js:591-611 | the name check, the start of the clock and the Enter key keep the invariant |
| Play.OverNothingSelectable | main.js:214-215 | once the game is over no card can be picked |
| Play.PickFirstEffect | main.js:217-231 | a first pick starts the card flipping toward face up with pulse 1, lights the glow, selects just that card, arms the single-flip callback 900 ms ahead, and leaves the turn, the session and the other cards alone |
| Play.PickFirstValid | main.js:217-232 | a first pick keeps the invariant |
| Play.PickSecondCards | main.js:234-244 | after a second pick both cards rest face up, unmatched, and the board stays sane with the same number of matched cards |
| Play.PickSecondValid | main.js:234-268 | a second pick keeps the invariant |
| Play.PickValid | main.js:217-268 | an accepted pick keeps the invariant |
| Play.ClickValid | main.js:201-269 | `handleClick` keeps the invariant: at most two distinct selected cards, counters matching the board, never a pick while resolving |
| Play.SingleFlipValid | main.js:225-231 | the single-flip callback keeps the invariant |
| Play.MarkPairCards | main.js:249-251 | marking both cards of a match adds exactly two matched cards and keeps the board sane |
| Play.DecisionMatchValid | main.js:248-258 | a matching decision keeps the invariant |
| Play.DecisionLastValid | main.js:255-257 | the decision on the last pair sets game over and keeps the invariant |
| Play.TurnPairCards | main.js:264-265 | turning a mismatch back keeps the board sane and both cards unmatched |
| Play.DecisionMismatchValid | main.js:259-266 | a mismatching decision keeps the invariant |
| Play.DecisionValid | main.js:247-267 | the decision callback keeps the invariant |
| Play.FrameCardsOk | main.js:273-303 | the card loops keep every card sane in its cell, every matched and target flag, and resting face-up cards resting face up |
| Play.ForcePairCards | main.js:315-320 | forcing the pending pair down keeps the board sane and the matched count |
| Play.WatchdogValid | main.js:305-325 | the pending-unflip watchdog keeps the invariant |
| Play.UpdateValid | main.js:271-332 | `update` with a non-negative delta keeps the invariant |
| Play.StampValid | main.js:455-459 | recording the frame time keeps the invariant, and the frame's delta is never negative |
| Play.TickValid | main.js:454-463 | one run of `loop` keeps the invariant |
| Play.ElapseValid | main.js:306 | the clock moving forward keeps the invariant |
| Play.OverIffAllMatched | main.js:255-257 | under the invariant the game is over exactly when every card is matched |
| Play.ValuesTwice | main.js:84-88 | under the invariant each value 1..8 lies on exactly two cards |
| Play.ClickEffect | main.js:201-219 | a click picks only when the name is given, the board is not resolving, and it hits an unmatched, face-down, resting, unselected card, and then appends exactly that card; otherwise board, selection, counters, timers and glow are unchanged |
| Play.PickSecondEffect | main.js:234-268 | the second pick cancels the single-flip timer, rests both cards face up at progress 1, adds exactly one move, sets resolving, arms the decision on those two cards 600 ms ahead, and moves no other card |
| Play.DecisionMatchEffect | main.js:248-258 | a match marks both cards, adds exactly one to matches, empties the selection and clears resolving; the game finishes exactly when that was the last pair (end stamped, score offered), and never before |
| Play.DecisionMismatchEffect | main.js:259-266 | a mismatch records the pair as pending with deadline now+700, empties the selection, starts both cards back down, and leaves resolving set |
| Play.UpdateReleases | main.js:305-325 | with a mismatch pending, a frame clears resolving exactly when both cards are down after the card loops or the deadline has passed; on the deadline path both are forced face down, progress 0, not flipping, targeting down |
| Play.UpdateAnimates | main.js:273-303 | after a frame every progress and pulse is in [0,1], no pulse and not the glow has grown, the glow stays non-negative, matched flags are kept, and no resting card shows a face it was turned away from |
| Play.WatchdogCards | main.js:315-320 | the watchdog changes a card only by forcing one of the pending pair down |
| Play.DecisionTouchesPair | main.js:247-267 | the decision callback leaves every card other than the captured pair unchanged and keeps the board size |
| Play.SingleFlipEffect | main.js:225-231 | the callback turns the lone card back and empties the selection exactly when one unmatched card is selected; otherwise only the timer is cleared |
| Play.FinishOnce | main.js:562-570 | `finishGame` is idempotent; a first call sets game over, stamps the end and offers the result; a later call changes nothing |
| Play.StartTimerOnce | main.js:606-611 | the start time changes only on a session neither started nor over, and then to the current time; a second call changes nothing |
| Play.ElapsedNonNegative | main.js:327-329 | the elapsed time shown is never negative |
| Play.Step | main.js:465-475 | defines one event: a click, typing in the name field, the Enter key, a due callback, a frame, or time passing |
| Play.StepValid | main.js:465-475 | every event (click, typing, Enter key, due callback, frame, time passing) keeps the invariant |
| Play.RunValid | main.js:465-475 | every state reachable by events keeps the invariant, so the selection never exceeds two cards |
| Play.StepKeepsMatched | main.js:214 | no event unmatches a matched card or moves it out of its face-up rest |
| Play.ClickKeepsMatched | main.js:214 | a click leaves a matched card exactly as it was |
| Play.UpdateKeepsMatched | main.js:271-325 | a frame keeps a matched card matched, in its cell and resting face up |
| Play.TickKeepsMatched | main.js:454-463 | one run of `loop` keeps a matched card matched, in its cell and resting face up |
| Play.RunKeepsMatched | main.js:214 | matched is terminal over any sequence of events |
| Play.StepKeepsResult | main.js:562-565 | after game over no event changes game over, the end time, the moves or the stored best |
| Play.RunKeepsResult | main.js:562-565 | completion happens once: a finished game keeps its result over any sequence of events |
| Play.StepKeepsStart | main.js:606-611 | once started, no event moves the start time |
| Play.RunKeepsStart | main.js:606-611 | the start time is set at most once per deal and never after game over |
| Game.Deal | main.js:83-118 | `buildDeck` on the 4x4 board gives the layout of the shuffled pair list |
| Game.MemoryGame.constructor | main.js:50-75 | page load: the declared initial values, then the first reset; the invariant holds |
| Game.MemoryGame.NameReady | main.js:592-593 | true exactly when the name field holds a non-blank name |
| Game.MemoryGame.ResetGame | main.js:159-189 | the new state is the reset of the old one, and the invariant holds |
| Game.MemoryGame.EnsurePlayerName | main.js:591-604 | reports whether a name is given and records it in `nameReady`, nothing else |
| Game.MemoryGame.StartTimerIfNeeded | main.js:606-611 | the new state is the old one with the clock started if needed |
| Game.MemoryGame.EnterName | main.js:469-475 | the Enter key checks the name and, when given, starts the clock; the invariant is kept |
| Game.MemoryGame.HandleClick | main.js:201-269 | the new state is what the click does to the old one, and the invariant is kept |
| Game.MemoryGame.PickCard | main.js:217-268 | the new state is the accepted pick applied to the old one |
| Game.MemoryGame.FireSingleFlip | main.js:225-231 | a due single-flip callback performs its transition and keeps the invariant |
| Game.MemoryGame.FinishGame | main.js:562-570 | the new state is the once-only finish of the old one |
| Game.MemoryGame.FireDecision | main.js:247-267 | a due decision callback performs its transition and keeps the invariant |
| Game.MemoryGame.AdvanceAll | main.js:274-286 | after the first loop, card k is the old card k advanced |
| Game.MemoryGame.DecayAll | main.js:288-292 | after the second loop, card k is the old card k with its pulse faded |
| Game.MemoryGame.SnapAll | main.js:298-303 | after the third loop, card k is the old card k snapped |
| Game.MemoryGame.AnimateCards | main.js:273-303 | the cards become the frame of the old cards and the glow fades; nothing else changes |
| Game.MemoryGame.Update | main.js:271-332 | the new state is `update` applied to the old one; with a non-negative delta the invariant is kept |
| Game.MemoryGame.Loop | main.js:454-463 | the new state is one run of `loop` on the old one, and the invariant is kept |
| Game.MemoryGame.PassTime | main.js:306 | the clock moves ahead by the given time, and the invariant is kept |

## Left out

- Canvas rendering (`drawCard`, `drawRoundedRect`, `draw`, `resizeCanvas`): drawing only, no game state.
- `requestAnimationFrame` and real `setTimeout` scheduling: a frame is the method `Loop`, a callback is a fire method, and time is `PassTime`; when each happens is up to the caller.
- `toCanvasPoint`: scaling DOM coordinates by floats; clicks arrive as integer board points.
- `syncFlipSpeed`: reading the slider; the flip speed is the `speed` parameter of `Update` and `Loop`.
- Status, counter and timer text, focus and blur, and the leaderboard modal: DOM updates with no effect on the game state.
- `formatTime`, `loadBest`, `updateBestUI`: display only.
- Supabase setup, `submitScore`, `loadLeaderboard`, `renderLeaderboard`, `scoreSubmitted`, `lastSubmittedSignature`: network I/O.
- `localStorage` and `JSON.parse`: the entry is the `Stored` value held in `bestStore`; encoding as JSON is not modelled. `Parsed` stands for a parsed record with numeric `moves` and `timeMs`, and `Unparsable` for text whose parse throws, as a stored `null` also does once its fields are read. A parsed value without those fields (`{}` or `5`) is not modelled: the program never overwrites it, because both comparisons with `undefined` are false.
- `scripts/create-config.js`: writes a configuration file from environment variables, I/O only.
- `Math.random`: the shuffle's random indices are an oracle `js` with `js[i] <= i`; uniformity of the shuffle is not modelled.
- Floating point: progress, pulse, glow, delta and speed are exact reals, so rounding is not modelled.
- Timer handles: after a callback runs, the model marks its timer idle. The program keeps the stale handle, but clearing a timer that has already fired has no effect.
- Game.MemoryGame.Update: keeps `Valid()` only for a non-negative delta; `Loop` always passes one, because the clock never runs backward.
- Game.MemoryGame.FireSingleFlip: may only be called while the callback is pending and due; a cancelled or re-armed callback never runs in the program either.
- Game.MemoryGame.FireDecision: may only be called while the decision is pending and due, for the same reason.
