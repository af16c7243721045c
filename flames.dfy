/**
  Flame particles: each anchor spawns a group of three points, each with its
  own random direction, phase and wiggle; every frame a particle's spread
  pursues the loudness-driven target and its rendered position is recomputed.
*/
module Flames {
  import opened Geometry
  import opened Pursuit

  /** Particles per anchor. */
  const GroupSize := 3

  /** Written-out value of Math.PI. */
  const Pi := 3.141592653589793

  /**
    The `Math.random()` draws of one particle that shape its motion, in the
    order the factory takes them: the three raw direction components, then
    the phase, the wiggle amplitude and the wiggle speed. (The two draws for
    the colour are not modelled.)
  */
  datatype Draws = Draws(dx: real, dy: real, dz: real, phase: real, amplitude: real, speed: real)

  predicate Unit(r: real) { 0.0 <= r < 1.0 }

  predicate ValidDraws(d: Draws)
  {
    Unit(d.dx) && Unit(d.dy) && Unit(d.dz) && Unit(d.phase) && Unit(d.amplitude) && Unit(d.speed)
  }

  /** The direction before normalisation: lateral components centred, the vertical one biased upward. */
  function RawDirection(d: Draws): (v: Point)
    requires ValidDraws(d)
    ensures -0.5 <= v.x < 0.5 && -0.5 <= v.z < 0.5
    ensures -0.2 <= v.y < 0.8
  {
    Point(d.dx - 0.5, d.dy - 0.2, d.dz - 0.5)
  }

  /**
    `Vector3.normalize()`: divide by the length, or by 1 when the length is 0.
    The length is a square root and is passed in by the caller.
  */
  function Normalize(v: Point, length: real): Point
  {
    var d := if length == 0.0 then 1.0 else length;
    Point(v.x / d, v.y / d, v.z / d)
  }

  /**
    Normalising divides every component by the same positive length, so it
    keeps the direction and can be undone by scaling back; the zero vector stays zero.
  */
  lemma NormalizeRescales(v: Point, length: real)
    ensures length > 0.0 ==> var u := Normalize(v, length);
      u.x * length == v.x && u.y * length == v.y && u.z * length == v.z
    ensures Normalize(Origin, length) == Origin
  {
  }

  /**
    When the supplied length is the true one (positive, squaring to the
    squared length), the normalised vector has unit length.
  */
  lemma NormalizeUnit(v: Point, length: real)
    requires length > 0.0 && length * length == NormSq(v)
    ensures NormSq(Normalize(v, length)) == 1.0
  {
    var u := Normalize(v, length);
    assert u.x * length == v.x && u.y * length == v.y && u.z * length == v.z;
    calc {
      NormSq(u) * (length * length);
      (u.x * length) * (u.x * length) + (u.y * length) * (u.y * length) + (u.z * length) * (u.z * length);
      NormSq(v);
      length * length;
    }
  }

  /** A scaled sine stays within its amplitude. */
  lemma ScaledSine(amplitude: real, s: real)
    requires 0.0 <= amplitude && -1.0 <= s <= 1.0
    ensures Abs(amplitude * s) <= amplitude
  {
    if s >= 0.0 {
      assert amplitude * s <= amplitude * 1.0;
    } else {
      assert amplitude * (-s) <= amplitude * 1.0;
    }
  }

  function Phase(r: real): (phase: real)
    requires Unit(r)
    ensures 0.0 <= phase < 2.0 * Pi
  {
    r * Pi * 2.0
  }

  function WiggleAmplitude(r: real): (amplitude: real)
    requires Unit(r)
    ensures 0.01 <= amplitude < 0.03
  {
    0.01 + r * 0.02
  }

  function WiggleSpeed(r: real): (speed: real)
    requires Unit(r)
    ensures 2.0 <= speed < 4.0
  {
    2.0 + r * 2.0
  }

  /** Sine and cosine as the host provides them: any values in [-1, 1]. */
  ghost predicate Trig(sin: real -> real, cos: real -> real)
  {
    forall a :: -1.0 <= sin(a) <= 1.0 && -1.0 <= cos(a) <= 1.0
  }

  /** One flame point and its `userData`. */
  class Particle {
    const basePosition: Point
    const direction: Point
    const phase: real
    const wiggleAmplitude: real
    const wiggleSpeed: real
    var currentSpread: real
    /** The single vertex of the point's position buffer. */
    var position: Point

    /** A particle at `anchor` built from its draws; `length` is the raw direction's length. */
    constructor (anchor: Point, d: Draws, length: real)
      requires ValidDraws(d)
      ensures basePosition == anchor && position == anchor
      ensures direction == Normalize(RawDirection(d), length)
      ensures phase == Phase(d.phase)
      ensures wiggleAmplitude == WiggleAmplitude(d.amplitude)
      ensures wiggleSpeed == WiggleSpeed(d.speed)
      ensures currentSpread == 0.0
    {
      basePosition := anchor;
      direction := Normalize(RawDirection(d), length);
      phase := Phase(d.phase);
      wiggleAmplitude := WiggleAmplitude(d.amplitude);
      wiggleSpeed := WiggleSpeed(d.speed);
      currentSpread := 0.0;
      position := anchor;
    }

    /**
      Where the point is drawn at time `t` with the given spread: out along
      its direction, plus a vertical wiggle and a small horizontal jitter.
    */
    function RenderAt(spread: real, t: real, sin: real -> real, cos: real -> real): (p: Point)
      requires Trig(sin, cos)
      requires 0.0 <= wiggleAmplitude
      ensures Abs(p.x - basePosition.x - direction.x * spread) <= 0.01
      ensures Abs(p.z - basePosition.z - direction.z * spread) <= 0.01
      ensures Abs(p.y - basePosition.y - direction.y * spread) <= wiggleAmplitude
    {
      var wiggle := wiggleAmplitude * sin(t * wiggleSpeed + phase);
      assert -1.0 <= sin(t * wiggleSpeed + phase) <= 1.0;
      ScaledSine(wiggleAmplitude, sin(t * wiggleSpeed + phase));
      assert -1.0 <= sin(t + phase) <= 1.0 && -1.0 <= cos(t + phase) <= 1.0;
      Point(basePosition.x + direction.x * spread + sin(t + phase) * 0.01,
            basePosition.y + direction.y * spread + wiggle,
            basePosition.z + direction.z * spread + cos(t + phase) * 0.01)
    }

    /** One pass of the render loop's body for this particle at signal level `level`. */
    method Advance(level: real, t: real, sin: real -> real, cos: real -> real)
      requires Trig(sin, cos)
      requires 0.0 <= wiggleAmplitude
      modifies this
      ensures currentSpread == Pursue(old(currentSpread), TargetSpread(level))
      ensures position == RenderAt(currentSpread, t, sin, cos)
    {
      var targetSpread := level * 20.0;
      if currentSpread < targetSpread {
        currentSpread := currentSpread + (targetSpread - currentSpread) * 0.2;
      } else {
        currentSpread := currentSpread + (targetSpread - currentSpread) * 0.008;
      }
      var spread := currentSpread;
      var wiggle := wiggleAmplitude * sin(t * wiggleSpeed + phase);
      var newX := basePosition.x + direction.x * spread + sin(t + phase) * 0.01;
      var newY := basePosition.y + direction.y * spread + wiggle;
      var newZ := basePosition.z + direction.z * spread + cos(t + phase) * 0.01;
      position := Point(newX, newY, newZ);
    }
  }

  /** The parameters a particle built from valid draws always satisfies. */
  ghost predicate WellMade(p: Particle)
  {
    && 0.0 <= p.phase < 2.0 * Pi
    && 0.01 <= p.wiggleAmplitude < 0.03
    && 2.0 <= p.wiggleSpeed < 4.0
  }

  /**
    The factory for one anchor: three fresh particles based at the anchor,
    particle `i` taking `draws(first + i)`; `length` gives a vector's length.
  */
  method CreateGroup(anchor: Point, draws: nat -> Draws, first: nat, length: Point -> real)
    returns (flames: seq<Particle>)
    requires forall k :: ValidDraws(draws(k))
    ensures |flames| == GroupSize
    ensures forall i :: 0 <= i < GroupSize ==> fresh(flames[i])
    ensures forall i, j :: 0 <= i < j < GroupSize ==> flames[i] != flames[j]
    ensures forall i :: 0 <= i < GroupSize ==> Spawned(flames[i], anchor, draws(first + i), length)
  {
    flames := [];
    for i := 0 to GroupSize
      invariant |flames| == i
      invariant forall j :: 0 <= j < i ==> fresh(flames[j])
      invariant forall j, k :: 0 <= j < k < i ==> flames[j] != flames[k]
      invariant forall j :: 0 <= j < i ==> Spawned(flames[j], anchor, draws(first + j), length)
    {
      var d := draws(first + i);
      var flame := new Particle(anchor, d, length(RawDirection(d)));
      flames := flames + [flame];
    }
  }

  /** `p` is the particle the factory builds at `anchor` from draws `d`. */
  ghost predicate Spawned(p: Particle, anchor: Point, d: Draws, length: Point -> real)
    reads p
    requires ValidDraws(d)
  {
    && p.basePosition == anchor && p.position == anchor
    && p.direction == Normalize(RawDirection(d), length(RawDirection(d)))
    && p.phase == Phase(d.phase)
    && p.wiggleAmplitude == WiggleAmplitude(d.amplitude)
    && p.wiggleSpeed == WiggleSpeed(d.speed)
    && p.currentSpread == 0.0
  }

  /** With a true length for its raw direction, a spawned particle moves along a unit vector. */
  lemma SpawnedDirectionIsUnit(p: Particle, anchor: Point, d: Draws, length: Point -> real)
    requires ValidDraws(d) && Spawned(p, anchor, d, length)
    requires length(RawDirection(d)) > 0.0
    requires length(RawDirection(d)) * length(RawDirection(d)) == NormSq(RawDirection(d))
    ensures NormSq(p.direction) == 1.0
  {
    NormalizeUnit(RawDirection(d), length(RawDirection(d)));
  }

  /** A freshly spawned particle has its parameters in the documented ranges. */
  lemma SpawnedIsWellMade(p: Particle, anchor: Point, d: Draws, length: Point -> real)
    requires ValidDraws(d) && Spawned(p, anchor, d, length)
    ensures WellMade(p) && p.currentSpread == 0.0 && p.basePosition == anchor
  {
  }
}
