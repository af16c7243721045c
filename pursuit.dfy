/**
  The per-frame spread arithmetic of the render loop: the loudness level is
  scaled into a target spread, and each particle's spread moves a fixed
  fraction of the remaining gap toward it, fast when rising and slowly
  otherwise.
*/
module Pursuit {

  // The constants are written out where they are used, as the render loop
  // does: 20 is the spread at full loudness, 0.2 the fraction of the gap
  // closed per frame while rising (attack), 0.008 the fraction otherwise (decay).

  function TargetSpread(level: real): (target: real)
    ensures 0.0 <= level <= 1.0 ==> 0.0 <= target <= 20.0
  {
    level * 20.0
  }

  /** A louder level never asks for a smaller spread. */
  lemma TargetMonotone(a: real, b: real)
    requires a <= b
    ensures TargetSpread(a) <= TargetSpread(b)
  {
  }

  predicate Between(r: real, a: real, b: real)
  {
    if a <= b then a <= r <= b else b <= r <= a
  }

  /** Fraction of the gap that survives one frame. */
  function Retained(spread: real, target: real): real
  {
    if spread < target then 0.8 else 0.992
  }

  /** One step of the pursuit of `target` from `spread`. */
  function Pursue(spread: real, target: real): (next: real)
    // never overshoots
    ensures Between(next, spread, target)
    // stays on its side of the target and does not snap onto it
    ensures spread < target ==> spread < next < target
    ensures target < spread ==> target < next < spread
    ensures spread == target ==> next == spread
  {
    if spread < target then
      spread + (target - spread) * 0.2
    else
      spread + (target - spread) * 0.008
  }

  /** The gap shrinks to 0.8 of itself when rising and to 0.992 of itself otherwise. */
  lemma PursueGap(spread: real, target: real)
    ensures Pursue(spread, target) - target == Retained(spread, target) * (spread - target)
    ensures Retained(Pursue(spread, target), target) == Retained(spread, target)
  {
  }

  /** The two worked frames: silence from 5 gives 4.96, full level from 0 gives 4. */
  lemma PursueExamples()
    ensures Pursue(0.0, TargetSpread(1.0)) == 4.0
    ensures Pursue(5.0, TargetSpread(0.0)) == 4.96
  {
  }

  /** The spread after one frame per entry of `levels`. */
  function Frames(spread: real, levels: seq<real>): real
    decreases levels
  {
    if levels == [] then spread else Frames(Pursue(spread, TargetSpread(levels[0])), levels[1..])
  }

  predicate Levels(levels: seq<real>)
  {
    forall i :: 0 <= i < |levels| ==> 0.0 <= levels[i] <= 1.0
  }

  /** With levels in [0, 1], a spread that starts in [0, 20] stays there for any number of frames. */
  lemma {:induction false} FramesStayInRange(spread: real, levels: seq<real>)
    requires 0.0 <= spread <= 20.0
    requires Levels(levels)
    ensures 0.0 <= Frames(spread, levels) <= 20.0
    decreases levels
  {
    if levels != [] {
      var target := TargetSpread(levels[0]);
      assert 0.0 <= target <= 20.0;
      FramesStayInRange(Pursue(spread, target), levels[1..]);
    }
  }

  function Repeat(level: real, n: nat): (levels: seq<real>)
    ensures |levels| == n
    ensures forall i :: 0 <= i < n ==> levels[i] == level
  {
    if n == 0 then [] else [level] + Repeat(level, n - 1)
  }

  function Pow(b: real, n: nat): real
  {
    if n == 0 then 1.0 else b * Pow(b, n - 1)
  }

  lemma {:induction false} PowPositive(b: real, n: nat)
    requires 0.0 < b
    ensures 0.0 < Pow(b, n)
  {
    if n > 0 {
      PowPositive(b, n - 1);
    }
  }

  /**
    Holding the level constant, the gap after `n` frames is the starting gap
    times 0.8^n when the spread starts below the target and 0.992^n otherwise:
    the pursuit is a geometric approach that never changes sides.
  */
  lemma {:induction false} ConstantLevelGap(spread: real, level: real, n: nat)
    ensures Frames(spread, Repeat(level, n)) - TargetSpread(level)
      == Pow(Retained(spread, TargetSpread(level)), n) * (spread - TargetSpread(level))
    decreases n
  {
    var target := TargetSpread(level);
    if n > 0 {
      var next := Pursue(spread, target);
      var b := Retained(spread, target);
      FramesRepeatStep(spread, level, n);
      ConstantLevelGap(next, level, n - 1);
      PursueGap(spread, target);
      GapStep(Frames(next, Repeat(level, n - 1)), target, Pow(b, n - 1), next, b, spread - target);
    }
  }

  lemma FramesRepeatStep(spread: real, level: real, n: nat)
    requires n > 0
    ensures Frames(spread, Repeat(level, n)) == Frames(Pursue(spread, TargetSpread(level)), Repeat(level, n - 1))
  {
    assert Repeat(level, n)[1..] == Repeat(level, n - 1);
  }

  lemma GapStep(f: real, target: real, p: real, next: real, b: real, g: real)
    requires f - target == p * (next - target)
    requires next - target == b * g
    ensures f - target == (b * p) * g
  {
    Regroup(p, b, g);
  }

  lemma Regroup(p: real, b: real, g: real)
    ensures p * (b * g) == (b * p) * g
  {
  }

  /** Held at a constant level, a spread off the target never lands exactly on it. */
  lemma NeverSnaps(spread: real, level: real, n: nat)
    requires spread != TargetSpread(level)
    ensures Frames(spread, Repeat(level, n)) != TargetSpread(level)
  {
    ConstantLevelGap(spread, level, n);
    PowPositive(Retained(spread, TargetSpread(level)), n);
  }
}
