/**
 * The card model of main.js: the card record, the fixed layout constants,
 * the Fisher-Yates shuffle (`shuffle`), the deck builder (`buildDeck`) and
 * the rectangle hit test that `handleClick` runs with `cards.find`.
 */
module Deck {
  import opened Options

  // Layout constants (main.js:43-48).
  const Padding: int := 24
  const Gap: int := 16
  const CardWidth: int := 110
  const CardHeight: int := 140

  /** One board cell, with its identity, layout and animation state. */
  datatype Card = Card(
    id: nat,
    row: nat,
    col: nat,
    x: int,
    y: int,
    width: int,
    height: int,
    value: int,
    faceUp: bool,
    matched: bool,
    flipProgress: real,
    flipping: bool,
    targetFaceUp: bool,
    pulse: real)

  /** Left edge of a card in column `c`. */
  function LayoutX(c: nat): int { Padding + c * (CardWidth + Gap) }

  /** Top edge of a card in row `r`. */
  function LayoutY(r: nat): int { Padding + r * (CardHeight + Gap) }

  /** The card `buildDeck` pushes for index `k` at grid cell (r, c) holding value `v`. */
  function NewCard(k: nat, r: nat, c: nat, v: int): Card
  {
    Card(k, r, c, LayoutX(c), LayoutY(r), CardWidth, CardHeight, v,
         false, false, 0.0, false, false, 0.0)
  }

  /** The face values of a deck, in board order. */
  function Values(cards: seq<Card>): (vs: seq<int>)
    ensures |vs| == |cards|
    ensures forall k :: 0 <= k < |cards| ==> vs[k] == cards[k].value
  {
    seq(|cards|, k requires 0 <= k < |cards| => cards[k].value)
  }

  // ---------------------------------------------------------------------
  // The value list 1,1,2,2,...,n,n

  /** The list `buildDeck` pushes before shuffling: each of 1..n twice, in order. */
  function PairList(n: nat): (s: seq<int>)
    ensures |s| == 2 * n
  {
    if n == 0 then [] else PairList(n - 1) + [n, n]
  }

  /** Every value of 1..n occurs exactly twice in PairList(n), and nothing else occurs. */
  lemma {:induction false} PairListCounts(n: nat, v: int)
    ensures multiset(PairList(n))[v] == if 1 <= v <= n then 2 else 0
  {
    if n == 0 {
      assert PairList(n) == [];
    } else {
      PairListCounts(n - 1, v);
      PushPairCount(PairList(n - 1), n, v);
      PairListStep(n);
    }
  }

  lemma PairListStep(n: nat)
    requires n > 0
    ensures PairList(n) == PairList(n - 1) + [n, n]
  {
  }

  /** Pushing the pair n, n onto a list holding 1..n-1 twice gives a list holding 1..n twice. */
  lemma PushPairCount(p: seq<int>, n: nat, v: int)
    requires n > 0 && multiset(p)[v] == if 1 <= v < n then 2 else 0
    ensures multiset(p + [n, n])[v] == if 1 <= v <= n then 2 else 0
  {
    assert multiset(p + [n, n]) == multiset(p) + multiset([n, n]);
    assert multiset([n, n])[v] == if v == n then 2 else 0;
  }

  /** The push loop of `buildDeck` (main.js:84-87). */
  method BuildValues(pairCount: nat) returns (values: seq<int>)
    ensures values == PairList(pairCount)
    ensures forall v :: multiset(values)[v] == if 1 <= v <= pairCount then 2 else 0
  {
    values := [];
    var i := 1;
    while i <= pairCount
      invariant 1 <= i <= pairCount + 1
      invariant values == PairList(i - 1)
    {
      assert PairList(i) == PairList(i - 1) + [i, i];
      values := values + [i, i];
      i := i + 1;
    }
    assert values == PairList(pairCount);
    forall v ensures multiset(values)[v] == if 1 <= v <= pairCount then 2 else 0 {
      PairListCounts(pairCount, v);
    }
  }

  // ---------------------------------------------------------------------
  // Fisher-Yates shuffle with the random choices given as an oracle

  /**
   * `js[i]` is the index `Math.floor(Math.random() * (i + 1))` that the shuffle
   * draws when it is at position `i`; it lies in 0..i.
   */
  predicate SwapOracle(js: seq<nat>, n: nat)
  {
    |js| == n && forall i :: 0 <= i < n ==> js[i] <= i
  }

  /** `s` with the elements at `i` and `j` exchanged. */
  function Swap(s: seq<int>, i: nat, j: nat): (r: seq<int>)
    requires i < |s| && j < |s|
    ensures |r| == |s| && r[i] == s[j] && r[j] == s[i]
    ensures forall k :: 0 <= k < |s| && k != i && k != j ==> r[k] == s[k]
  {
    s[i := s[j]][j := s[i]]
  }

  /** The swaps the shuffle still has to make when it is at position `i` (going down to 1). */
  function ShuffleDown(s: seq<int>, js: seq<nat>, i: int): seq<int>
    requires SwapOracle(js, |s|) && -1 <= i < |s|
    decreases i + 1
  {
    if i <= 0 then s else ShuffleDown(Swap(s, i, js[i]), js, i - 1)
  }

  /** The outcome of `shuffle` on `s` for the choices `js`. */
  function Shuffled(s: seq<int>, js: seq<nat>): seq<int>
    requires SwapOracle(js, |s|)
  {
    ShuffleDown(s, js, |s| - 1)
  }

  lemma SwapPermutes(s: seq<int>, i: nat, j: nat)
    requires i < |s| && j < |s|
    ensures multiset(Swap(s, i, j)) == multiset(s)
  {
    var t := s[i := s[j]];
    assert multiset(t) == multiset(s) - multiset{s[i]} + multiset{s[j]};
    assert multiset(t[j := s[i]]) == multiset(t) - multiset{t[j]} + multiset{s[i]};
  }

  /** The shuffle only ever swaps, so its output is a permutation of its input. */
  lemma {:induction false} ShuffleDownPermutes(s: seq<int>, js: seq<nat>, i: int)
    requires SwapOracle(js, |s|) && -1 <= i < |s|
    ensures |ShuffleDown(s, js, i)| == |s|
    ensures multiset(ShuffleDown(s, js, i)) == multiset(s)
    decreases i + 1
  {
    if i > 0 {
      SwapPermutes(s, i, js[i]);
      ShuffleDownPermutes(Swap(s, i, js[i]), js, i - 1);
    }
  }

  lemma ShuffledPermutes(s: seq<int>, js: seq<nat>)
    requires SwapOracle(js, |s|)
    ensures |Shuffled(s, js)| == |s| && multiset(Shuffled(s, js)) == multiset(s)
  {
    ShuffleDownPermutes(s, js, |s| - 1);
  }

  /** `shuffle` (main.js:76-81): swaps a[i] with a[js[i]] for i from the end down to 1. */
  method Shuffle(a: array<int>, js: seq<nat>)
    requires SwapOracle(js, a.Length)
    modifies a
    ensures a[..] == Shuffled(old(a[..]), js)
    ensures multiset(a[..]) == multiset(old(a[..]))
  {
    var i := a.Length - 1;
    while i > 0
      invariant -1 <= i < a.Length
      invariant Shuffled(old(a[..]), js) == ShuffleDown(a[..], js, i)
    {
      var j := js[i];
      ghost var before := a[..];
      a[i], a[j] := a[j], a[i];
      assert a[..] == Swap(before, i, j);
      i := i - 1;
    }
    ShuffledPermutes(old(a[..]), js);
  }

  // ---------------------------------------------------------------------
  // Deck construction

  /**
   * Card `c` sits at board index `k` of a grid with `cols` columns: row-major
   * position, identity and the layout `buildDeck` computes for that cell.
   */
  predicate Placed(c: Card, k: nat, cols: nat)
  {
    && c.id == k
    && c.row * cols + c.col == k
    && c.col < cols
    && c.x == LayoutX(c.col) && c.y == LayoutY(c.row)
    && c.width == CardWidth && c.height == CardHeight
  }

  /** Card `c` is the fresh, face-down card for board index `k` holding `values[k]`. */
  predicate Dealt(c: Card, k: nat, cols: nat, values: seq<int>)
  {
    && Placed(c, k, cols)
    && k < |values|
    && c == NewCard(k, c.row, c.col, values[k])
  }

  /** A row-major index determines its grid cell: row = k / cols and col = k % cols. */
  lemma GridCell(r: nat, c: nat, cols: nat, k: nat)
    requires r * cols + c == k && c < cols
    ensures r == k / cols && c == k % cols
  {
    var q, m := k / cols, k % cols;
    assert k == q * cols + m;
    if r > q {
      MulMono(q + 1, r, cols);
    } else if r < q {
      MulMono(r + 1, q, cols);
    }
  }

  lemma MulMono(a: nat, b: nat, c: nat)
    requires a <= b
    ensures a * c <= b * c
  {
  }

  /** The shuffled value list for a deck of `n` cards carries each of 1..n/2 twice. */
  lemma DealtCounts(n: nat, js: seq<nat>, dealt: seq<int>, deck: seq<Card>)
    requires SwapOracle(js, 2 * (n / 2)) && dealt == Shuffled(PairList(n / 2), js)
    requires Values(deck) == dealt
    ensures multiset(Values(deck)) == multiset(PairList(n / 2))
    ensures forall v :: multiset(Values(deck))[v] == if 1 <= v <= n / 2 then 2 else 0
  {
    ShuffledPermutes(PairList(n / 2), js);
    forall v ensures multiset(Values(deck))[v] == if 1 <= v <= n / 2 then 2 else 0 {
      PairListCounts(n / 2, v);
    }
  }

  /**
   * `buildDeck` (main.js:83-118) generalised from the fixed 4x4 board to
   * `rows` x `cols`: the values 1,1,...,p,p with p = rows*cols/2 are shuffled
   * with the choices `js` and laid out row by row.
   */
  method BuildDeck(rows: nat, cols: nat, js: seq<nat>) returns (deck: seq<Card>)
    requires (rows * cols) % 2 == 0
    requires SwapOracle(js, rows * cols)
    ensures |deck| == rows * cols
    ensures forall k :: 0 <= k < |deck| ==>
              Dealt(deck[k], k, cols, Shuffled(PairList(rows * cols / 2), js)) && deck[k].row < rows
    ensures multiset(Values(deck)) == multiset(PairList(rows * cols / 2))
    ensures forall v :: multiset(Values(deck))[v] == if 1 <= v <= rows * cols / 2 then 2 else 0
  {
    ghost var n := rows * cols;
    var values := BuildValues(rows * cols / 2);
    assert |values| == n;
    var a := new int[|values|](k requires 0 <= k < |values| => values[k]);
    assert a[..] == values;
    Shuffle(a, js);
    ghost var dealt := a[..];
    assert dealt == Shuffled(PairList(n / 2), js);

    deck := LayOut(a, rows, cols);
    assert Values(deck) == dealt;
    DealtCounts(n, js, dealt, deck);
  }

  /** The nested loop of `buildDeck` (main.js:90-117): one card per cell, row by row, taking the values in order. */
  method LayOut(a: array<int>, rows: nat, cols: nat) returns (deck: seq<Card>)
    requires a.Length == rows * cols
    ensures |deck| == rows * cols
    ensures forall k :: 0 <= k < |deck| ==> Dealt(deck[k], k, cols, a[..]) && deck[k].row < rows
  {
    ghost var n := rows * cols;
    ghost var dealt := a[..];
    deck := [];
    var index := 0;
    var r := 0;
    while r < rows
      invariant 0 <= r <= rows
      invariant index == r * cols == |deck|
      invariant forall k :: 0 <= k < |deck| ==> Dealt(deck[k], k, cols, dealt) && deck[k].row < r
    {
      MulMono(r + 1, rows, cols);
      assert (r + 1) * cols == r * cols + cols;
      var c := 0;
      while c < cols
        invariant 0 <= c <= cols
        invariant index == r * cols + c == |deck| && r * cols + cols <= n
        invariant forall k :: 0 <= k < |deck| ==> Dealt(deck[k], k, cols, dealt) && deck[k].row <= r
      {
        deck := deck + [NewCard(index, r, c, a[index])];
        index := index + 1;
        c := c + 1;
      }
      r := r + 1;
    }
  }

  /** The deck `buildDeck` lays out for the value list `values` on a grid with `cols` columns. */
  function DeckOf(values: seq<int>, cols: nat): (deck: seq<Card>)
    requires cols > 0
    ensures |deck| == |values|
    ensures forall k :: 0 <= k < |deck| ==> Dealt(deck[k], k, cols, values)
  {
    seq(|values|, k requires 0 <= k < |values| => NewCard(k, k / cols, k % cols, values[k]))
  }

  /** The cards `BuildDeck` pushes are exactly `DeckOf` its shuffled values: a cell's card is unique. */
  lemma DealtIsDeckOf(deck: seq<Card>, cols: nat, values: seq<int>)
    requires cols > 0 && |deck| == |values|
    requires forall k :: 0 <= k < |deck| ==> Dealt(deck[k], k, cols, values)
    ensures deck == DeckOf(values, cols)
  {
    forall k | 0 <= k < |deck| ensures deck[k] == DeckOf(values, cols)[k] {
      assert Dealt(deck[k], k, cols, values);
      GridCell(deck[k].row, deck[k].col, cols, k);
    }
  }

  // ---------------------------------------------------------------------
  // Hit testing (main.js:207-213)

  /** The inclusive rectangle test of `handleClick`. */
  predicate Contains(c: Card, px: int, py: int)
  {
    px >= c.x && px <= c.x + c.width && py >= c.y && py <= c.y + c.height
  }

  function HitFrom(cards: seq<Card>, px: int, py: int, from: nat): (r: Option<nat>)
    requires from <= |cards|
    ensures r.Some? ==> from <= r.value < |cards| && Contains(cards[r.value], px, py)
                        && forall k :: from <= k < r.value ==> !Contains(cards[k], px, py)
    ensures r.None? ==> forall k :: from <= k < |cards| ==> !Contains(cards[k], px, py)
    decreases |cards| - from
  {
    if from == |cards| then None
    else if Contains(cards[from], px, py) then Some(from)
    else HitFrom(cards, px, py, from + 1)
  }

  /** `cards.find(...)`: the first card whose rectangle holds the point, if any. */
  function HitTest(cards: seq<Card>, px: int, py: int): (r: Option<nat>)
    ensures r.Some? ==> r.value < |cards| && Contains(cards[r.value], px, py)
                        && forall k :: 0 <= k < r.value ==> !Contains(cards[k], px, py)
    ensures r.None? ==> forall k :: 0 <= k < |cards| ==> !Contains(cards[k], px, py)
  {
    HitFrom(cards, px, py, 0)
  }

  /** Two different board cells never overlap, so the hit test finds the card under any point inside it. */
  lemma {:induction false} HitInside(cards: seq<Card>, cols: nat, k: nat, px: int, py: int)
    requires forall j :: 0 <= j < |cards| ==> Placed(cards[j], j, cols)
    requires k < |cards| && Contains(cards[k], px, py)
    ensures HitTest(cards, px, py) == Some(k)
  {
    forall j | 0 <= j < k ensures !Contains(cards[j], px, py) {
      var a, b := cards[j], cards[k];
      if a.row == b.row {
        assert a.col != b.col;
      } else {
        assert a.row != b.row;
      }
    }
  }
}
