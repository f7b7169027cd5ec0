/**
 * The flip animation of main.js: the two instant card updates `flipTo` and
 * `forceFaceUp`, and the per-card steps of the three loops in `update`
 * (advancing `flipProgress`, decaying `pulse`, snapping stale face-up cards
 * down). Each step is a function on one `Card`; the Game class applies them
 * to every card in turn.
 */
module Animation {
  import opened Deck

  /** Rate per second at which a card's pulse fades (main.js:290). */
  const PulseRate: real := 3.5
  /** Rate per second at which the board-wide glow fades (main.js:295). */
  const GlowRate: real := 2.0

  /** Same card: identity, layout and face value are untouched. */
  predicate SameCell(a: Card, b: Card)
  {
    a.id == b.id && a.row == b.row && a.col == b.col && a.x == b.x && a.y == b.y
    && a.width == b.width && a.height == b.height && a.value == b.value
  }

  /**
   * The animation state every card keeps: progress and pulse in [0,1], and a
   * card that is not flipping rests at a bound, showing its face exactly
   * when that bound is 1.
   */
  predicate WellFormed(c: Card)
  {
    && 0.0 <= c.flipProgress <= 1.0
    && 0.0 <= c.pulse <= 1.0
    && (!c.flipping ==> (c.flipProgress == 0.0 || c.flipProgress == 1.0)
                        && (c.faceUp <==> c.flipProgress == 1.0))
  }

  /** `flipTo` (main.js:138-142): start animating toward `up`, with a full pulse. */
  function FlipTo(c: Card, up: bool): (r: Card)
    ensures SameCell(c, r) && r.matched == c.matched
    ensures r.targetFaceUp == up && r.flipping && r.pulse == 1.0
    ensures r.faceUp == c.faceUp && r.flipProgress == c.flipProgress
    ensures 0.0 <= c.flipProgress <= 1.0 ==> WellFormed(r)
  {
    c.(targetFaceUp := up, flipping := true, pulse := 1.0)
  }

  /** `forceFaceUp` (main.js:144-149): settle face up at once, skipping the animation. */
  function ForceFaceUp(c: Card): (r: Card)
    ensures SameCell(c, r) && r.matched == c.matched && r.pulse == c.pulse
    ensures r.targetFaceUp && r.faceUp && !r.flipping && r.flipProgress == 1.0
    ensures 0.0 <= c.pulse <= 1.0 ==> WellFormed(r)
  {
    c.(targetFaceUp := true, faceUp := true, flipProgress := 1.0, flipping := false)
  }

  /** The watchdog's forced return of a pending card (main.js:315-320). */
  function ForceFaceDown(c: Card): (r: Card)
    ensures SameCell(c, r) && r.matched == c.matched && r.pulse == c.pulse
    ensures !r.targetFaceUp && !r.faceUp && !r.flipping && r.flipProgress == 0.0
    ensures 0.0 <= c.pulse <= 1.0 ==> WellFormed(r)
  {
    c.(faceUp := false, flipProgress := 0.0, flipping := false, targetFaceUp := false)
  }

  /**
   * One card of the first loop of `update` (main.js:273-286): a flipping card
   * moves `speed * delta` toward its target and is clamped, and stops, at
   * the bound it reaches.
   */
  function Advance(c: Card, delta: real, speed: real): (r: Card)
    ensures SameCell(c, r) && r.matched == c.matched
    ensures r.targetFaceUp == c.targetFaceUp && r.pulse == c.pulse
    ensures !c.flipping ==> r == c
    ensures c.flipping ==> 0.0 <= r.flipProgress <= 1.0
    ensures c.flipping ==>
              var p := c.flipProgress + (if c.targetFaceUp then speed * delta else -(speed * delta));
              && (r.flipping <==> 0.0 < p < 1.0)
              && (p >= 1.0 ==> r.flipProgress == 1.0 && r.faceUp)
              && (p <= 0.0 ==> r.flipProgress == 0.0 && !r.faceUp)
              && (r.flipping ==> r.flipProgress == p && r.faceUp == c.faceUp)
    ensures c.flipping && speed * delta >= 0.0 && c.flipProgress <= 1.0 && c.targetFaceUp ==>
              r.flipProgress >= c.flipProgress
    ensures c.flipping && speed * delta >= 0.0 && c.flipProgress >= 0.0 && !c.targetFaceUp ==>
              r.flipProgress <= c.flipProgress
    ensures WellFormed(c) ==> WellFormed(r)
  {
    if !c.flipping then c
    else
      var dir := if c.targetFaceUp then 1.0 else -1.0;
      var p := c.flipProgress + dir * speed * delta;
      if p >= 1.0 then c.(flipProgress := 1.0, faceUp := true, flipping := false)
      else if p <= 0.0 then c.(flipProgress := 0.0, faceUp := false, flipping := false)
      else c.(flipProgress := p)
  }

  /**
   * Linear fade of a non-negative intensity: `Math.max(0, level - delta * rate)`
   * when the level is positive, nothing otherwise (main.js:289-296).
   */
  function Decayed(level: real, rate: real, delta: real): (r: real)
    ensures level <= 0.0 ==> r == level
    ensures level > 0.0 ==> 0.0 <= r
    ensures delta * rate >= 0.0 ==> r <= level
    ensures level > 0.0 && level <= delta * rate ==> r == 0.0
    ensures level > 0.0 && level > delta * rate ==> r == level - delta * rate
  {
    if level > 0.0 then
      var v := level - delta * rate;
      if v > 0.0 then v else 0.0
    else level
  }

  /** One card of the second loop of `update` (main.js:288-292). */
  function DecayPulse(c: Card, delta: real): (r: Card)
    ensures SameCell(c, r) && r.matched == c.matched && r.faceUp == c.faceUp
    ensures r.flipping == c.flipping && r.targetFaceUp == c.targetFaceUp
    ensures r.flipProgress == c.flipProgress
    ensures r.pulse == Decayed(c.pulse, PulseRate, delta)
    ensures WellFormed(c) && delta >= 0.0 ==> WellFormed(r) && r.pulse <= c.pulse
  {
    c.(pulse := Decayed(c.pulse, PulseRate, delta))
  }

  /**
   * One card of the third loop of `update` (main.js:298-303): a card at rest
   * that should be face down but still shows its face is snapped down.
   */
  function Snap(c: Card): (r: Card)
    ensures SameCell(c, r) && r.matched == c.matched && r.pulse == c.pulse
    ensures r.flipping == c.flipping && r.targetFaceUp == c.targetFaceUp
    ensures !(!r.flipping && !r.targetFaceUp && r.faceUp)
    ensures (!c.flipping && !c.targetFaceUp && c.faceUp) <==> r != c
    ensures r != c ==> !r.faceUp && r.flipProgress == 0.0
    ensures WellFormed(c) ==> WellFormed(r)
  {
    if !c.flipping && !c.targetFaceUp && c.faceUp then c.(faceUp := false, flipProgress := 0.0)
    else c
  }

  /** One card's share of a frame: the three loops of `update` (main.js:273-303) in order. */
  function FrameCard(c: Card, delta: real, speed: real): Card
  {
    Snap(DecayPulse(Advance(c, delta, speed), delta))
  }

  /**
   * The card steps of one frame compose into an animation that cannot leave
   * its range: from a well-formed card, advancing, fading and snapping give
   * a well-formed card that is not stuck showing a face it was turned away
   * from, and whose pulse has not grown.
   */
  lemma FrameKeepsCard(c: Card, delta: real, speed: real)
    requires WellFormed(c) && delta >= 0.0
    ensures var r := FrameCard(c, delta, speed);
            && WellFormed(r) && SameCell(c, r) && r.matched == c.matched
            && r.targetFaceUp == c.targetFaceUp && r.pulse <= c.pulse
            && (!r.flipping && !r.targetFaceUp ==> !r.faceUp && r.flipProgress == 0.0)
  {
  }
}
