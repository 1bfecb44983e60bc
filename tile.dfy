/**
 * The discrete part of one flipping tile: whether it animates, and the
 * timing handed to the two halves of the flip (the old character folding
 * away, then the new one unfolding). The two random draws of the source are
 * parameters `r1` and `r2`, and times are real numbers of seconds.
 */
module Tile {

  /** `c || " "`: the empty string shows as a space. */
  function SafeChar(c: string): (shown: string)
    ensures shown != "" && (c != "" ==> shown == c) && (c == "" ==> shown == " ")
  {
    if c == "" then " " else c
  }

  /** Whether the tile runs the full flip: its content changes, and it is not
      a blank-to-blank change. */
  function ShouldAnimate(character: string, prevChar: string): (r: bool)
    ensures r <==> SafeChar(character) != SafeChar(prevChar)
  {
    var safeChar, safePrevChar := SafeChar(character), SafeChar(prevChar);
    var isChanging := safeChar != safePrevChar;
    var isEmptyToEmpty := safeChar == " " && safePrevChar == " ";
    isChanging && !isEmptyToEmpty
  }

  datatype Easing = Linear | EaseInOut | EaseOut

  /** One half of the flip as handed to the animation library. */
  datatype Phase = Phase(duration: real, delay: real, ease: Easing)

  /** Everything the tile decides: whether it animates, the character it
      settles on, the character it shows while flipping, and its two
      halves. */
  datatype TilePlan = TilePlan(animate: bool, shown: string, previous: string, fold: Phase, unfold: Phase)

  /** The tile's timing. A changing tile stretches the flip duration by a
      factor in [0.8, 1.2) and adds up to 0.2 s to the staggered delay; any
      other tile uses the plain duration and no delay. Each half takes half
      of the duration, and the second starts when the first ends. */
  function Plan(character: string, prevChar: string, flipDuration: real, delay: real, r1: real, r2: real): TilePlan {
    var animate := ShouldAnimate(character, prevChar);
    var duration := if animate then flipDuration * (0.8 + r1 * 0.4) else flipDuration;
    var start := if animate then delay + r2 * 0.2 else 0.0;
    TilePlan(animate, SafeChar(character), SafeChar(prevChar),
             Phase(duration / 2.0, start, if animate then EaseInOut else Linear),
             Phase(duration / 2.0, start + duration / 2.0, if animate then EaseOut else Linear))
  }

  /** A tile that keeps its character flips in exactly `flipDuration`,
      linearly, from time 0, whatever the draws and the staggered delay. */
  lemma StillTile(character: string, prevChar: string, flipDuration: real, delay: real, r1: real, r2: real)
    requires !ShouldAnimate(character, prevChar)
    ensures var p := Plan(character, prevChar, flipDuration, delay, r1, r2);
      && !p.animate
      && p.fold == Phase(flipDuration / 2.0, 0.0, Linear)
      && p.unfold == Phase(flipDuration / 2.0, flipDuration / 2.0, Linear)
      && p.fold.duration + p.unfold.duration == flipDuration
  {
  }

  /** With draws in [0, 1) and a positive flip duration, a changing tile's
      flip lasts between 80% (inclusive) and 120% (exclusive) of the
      duration and starts at most 0.2 s after its staggered delay. */
  lemma ChangingTileBounds(character: string, prevChar: string, flipDuration: real, delay: real, r1: real, r2: real)
    requires ShouldAnimate(character, prevChar)
    requires flipDuration > 0.0 && 0.0 <= r1 < 1.0 && 0.0 <= r2 < 1.0
    ensures var p := Plan(character, prevChar, flipDuration, delay, r1, r2);
      var total := p.fold.duration + p.unfold.duration;
      && p.animate && p.fold.ease == EaseInOut && p.unfold.ease == EaseOut
      && 0.8 * flipDuration <= total < 1.2 * flipDuration
      && delay <= p.fold.delay < delay + 0.2
  {
    var total := flipDuration * (0.8 + r1 * 0.4);
    assert total - 0.8 * flipDuration == flipDuration * r1 * 0.4;
    assert 1.2 * flipDuration - total == flipDuration * (1.0 - r1) * 0.4;
  }

  /** For every tile and every draw, the unfolding half starts exactly when
      the folding half ends, and the two halves are equally long. */
  lemma HalvesMeet(character: string, prevChar: string, flipDuration: real, delay: real, r1: real, r2: real)
    ensures var p := Plan(character, prevChar, flipDuration, delay, r1, r2);
      && p.unfold.delay == p.fold.delay + p.fold.duration
      && p.unfold.duration == p.fold.duration
  {
  }

  /** A tile whose character is unchanged never animates, and neither does
      a blank tile turning into a space. */
  lemma UnchangedNeverAnimates(c: string)
    ensures !ShouldAnimate(c, c)
    ensures !ShouldAnimate("", " ") && !ShouldAnimate(" ", "")
  {
  }

  /** Three tiles with previous characters "a", " ", "b" and new characters
      "a", "x", "y": the first keeps still, the other two flip. */
  lemma ThreeTileExample()
    ensures !ShouldAnimate("a", "a")
    ensures ShouldAnimate("x", " ")
    ensures ShouldAnimate("y", "b")
  {
  }
}
