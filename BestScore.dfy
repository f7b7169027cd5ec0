/**
 * The best-score comparison of main.js (`maybeUpdateBest`). The local store
 * entry is given as a value: missing, present but not parseable, or a parsed
 * record. The update returns what the store holds afterwards.
 */
module BestScore {
  /** A finished game's result, `{ moves, timeMs }`. */
  datatype Score = Score(moves: int, timeMs: int)

  /** What `localStorage.getItem(bestKey)` yields and `JSON.parse` makes of it. */
  datatype Stored = Absent | Unparsable | Parsed(best: Score)

  /** Strictly better: less time, or the same time in fewer moves (main.js:549-551). */
  predicate Better(current: Score, best: Score)
  {
    current.timeMs < best.timeMs || (current.timeMs == best.timeMs && current.moves < best.moves)
  }

  /** `maybeUpdateBest` overwrites the entry exactly in these cases (main.js:542-559). */
  predicate Overwrites(stored: Stored, current: Score)
  {
    match stored
    case Absent => true
    case Unparsable => true
    case Parsed(best) => Better(current, best)
  }

  /** The store entry after `maybeUpdateBest` ran with the result `current`. */
  function MaybeUpdateBest(stored: Stored, current: Score): (r: Stored)
    ensures r.Parsed?
    ensures r == stored || r == Parsed(current)
    ensures r != stored ==> Overwrites(stored, current)
    ensures !stored.Parsed? ==> r == Parsed(current)
    ensures stored.Parsed? ==> !Better(stored.best, r.best) && !Better(current, r.best)
  {
    if Overwrites(stored, current) then Parsed(current) else stored
  }

  /** Better is a strict order: irreflexive and transitive. */
  lemma BetterIsStrictOrder(a: Score, b: Score, c: Score)
    ensures !Better(a, a)
    ensures Better(a, b) && Better(b, c) ==> Better(a, c)
    ensures Better(a, b) ==> !Better(b, a)
  {
  }

  /** Better is total on distinct results: of two different results one is better. */
  lemma BetterIsTotal(a: Score, b: Score)
    ensures a != b ==> Better(a, b) || Better(b, a)
  {
  }

  /** Saving the same result twice is the same as saving it once. */
  lemma UpdateIdempotent(stored: Stored, current: Score)
    ensures MaybeUpdateBest(MaybeUpdateBest(stored, current), current) == MaybeUpdateBest(stored, current)
  {
  }

  /** The entry after saving each of `results` in turn, starting from `stored`. */
  function SaveAll(stored: Stored, results: seq<Score>): Stored
    decreases |results|
  {
    if results == [] then stored
    else SaveAll(MaybeUpdateBest(stored, results[0]), results[1..])
  }

  /**
   * After a run of games starting with no usable record, the entry holds one
   * of the results and none of them is strictly better than it: the stored
   * best is the lexicographic minimum, the earliest one among equals.
   */
  lemma {:induction false} SaveAllKeepsMinimum(stored: Stored, results: seq<Score>)
    requires stored.Parsed? || results != []
    ensures SaveAll(stored, results).Parsed?
    ensures var b := SaveAll(stored, results).best;
            && (b in results || stored == Parsed(b))
            && (forall i :: 0 <= i < |results| ==> !Better(results[i], b))
            && (stored.Parsed? ==> !Better(stored.best, b))
    decreases |results|
  {
    if results != [] {
      var next := MaybeUpdateBest(stored, results[0]);
      SaveAllKeepsMinimum(next, results[1..]);
      var b := SaveAll(stored, results).best;
      assert SaveAll(stored, results) == SaveAll(next, results[1..]);
      forall i | 0 <= i < |results| ensures !Better(results[i], b) {
        if i > 0 {
          assert results[i] == results[1..][i - 1];
        } else {
          BetterIsStrictOrder(results[0], next.best, b);
        }
      }
      if stored.Parsed? {
        BetterIsStrictOrder(stored.best, next.best, b);
      }
      if next == Parsed(b) {
        assert b in results || stored == Parsed(b);
      }
    }
  }
}
