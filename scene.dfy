/**
  The script's shared state and its three callbacks: the audio callback
  publishes the loudness, the model-load callback spawns the flames, and the
  render callback advances every flame once per frame.
*/
module Scene {
  import opened Geometry
  import opened Signal
  import opened Anchors
  import opened Pursuit
  import opened Flames

  class Experience {
    /** The loudness last published by the audio callback. */
    var audioVolume: real
    /** Every flame particle created so far. */
    var flameParticles: seq<Particle>
    /** The analyser's reusable byte buffer. */
    const dataArray: array<Byte>

    ghost predicate Valid()
      reads this, flameParticles
    {
      && dataArray.Length == BinCount
      && 0.0 <= audioVolume <= 1.0
      && (forall i, j :: 0 <= i < j < |flameParticles| ==> flameParticles[i] != flameParticles[j])
      && (forall i :: 0 <= i < |flameParticles| ==>
            WellMade(flameParticles[i]) && 0.0 <= flameParticles[i].currentSpread <= 20.0)
    }

    /** Start-up: silence, no flames yet, a buffer of one byte per frequency bin. */
    constructor ()
      ensures Valid()
      ensures audioVolume == 0.0 && flameParticles == []
      ensures fresh(dataArray)
    {
      audioVolume := 0.0;
      flameParticles := [];
      dataArray := new Byte[BinCount];
    }

    /** One audio frame: the analyser fills the buffer with `frame`, and the mean is published. */
    method UpdateAudio(frame: seq<Byte>)
      requires Valid() && |frame| == BinCount
      modifies this`audioVolume, dataArray
      ensures Valid()
      ensures dataArray[..] == frame
      ensures audioVolume == Level(frame)
    {
      forall i | 0 <= i < dataArray.Length {
        dataArray[i] := frame[i];
      }
      audioVolume := MeasureVolume(dataArray);
    }

    /**
      The part of the model-load callback that builds the flames: extract the
      anchors from the candle mesh and append a group of particles for each.
      The `k`-th new particle uses `draws(k)`; `length` gives a vector's length.
    */
    method LoadCandles(mesh: Mesh, draws: nat -> Draws, length: Point -> real)
      requires Valid()
      requires forall k :: ValidDraws(draws(k))
      modifies this`flameParticles
      ensures Valid()
      ensures |flameParticles| == |old(flameParticles)| + GroupSize * |AnchorsOf(mesh)|
      ensures flameParticles[..|old(flameParticles)|] == old(flameParticles)
      ensures forall i :: |old(flameParticles)| <= i < |flameParticles| ==>
        var k := i - |old(flameParticles)|;
        fresh(flameParticles[i]) && Spawned(flameParticles[i], AnchorsOf(mesh)[k / GroupSize], draws(k), length)
    {
      var candlePositions := ExtractAnchors(mesh);
      var n0 := |flameParticles|;
      for a := 0 to |candlePositions|
        invariant |flameParticles| == n0 + GroupSize * a
        invariant flameParticles[..n0] == old(flameParticles)
        invariant forall i :: n0 <= i < |flameParticles| ==>
          fresh(flameParticles[i]) &&
          Spawned(flameParticles[i], candlePositions[(i - n0) / GroupSize], draws(i - n0), length)
        invariant Valid()
      {
        ghost var before := flameParticles;
        AddGroup(candlePositions[a], draws, GroupSize * a, length);
        forall i | n0 <= i < |flameParticles|
          ensures fresh(flameParticles[i])
          ensures Spawned(flameParticles[i], candlePositions[(i - n0) / GroupSize], draws(i - n0), length)
        {
          if i < |before| {
            assert flameParticles[i] == before[i];
          } else {
            assert (i - n0) / GroupSize == a;
          }
        }
      }
    }

    /** `createChunkyFlameParticles` for one anchor, followed by the push onto the flame list. */
    method AddGroup(anchor: Point, draws: nat -> Draws, first: nat, length: Point -> real)
      requires Valid()
      requires forall k :: ValidDraws(draws(k))
      modifies this`flameParticles
      ensures Valid()
      ensures |flameParticles| == |old(flameParticles)| + GroupSize
      ensures flameParticles[..|old(flameParticles)|] == old(flameParticles)
      ensures forall i :: |old(flameParticles)| <= i < |flameParticles| ==>
        fresh(flameParticles[i]) &&
        Spawned(flameParticles[i], anchor, draws(first + i - |old(flameParticles)|), length)
    {
      var flame := CreateGroup(anchor, draws, first, length);
      ghost var n := |flameParticles|;
      flameParticles := flameParticles + flame;
      forall i | 0 <= i < |flameParticles|
        ensures WellMade(flameParticles[i]) && 0.0 <= flameParticles[i].currentSpread <= 20.0
      {
        if i >= n {
          SpawnedIsWellMade(flameParticles[i], anchor, draws(first + i - n), length);
        }
      }
    }

    /** The flame loop of one rendered frame at elapsed time `elapsed`. */
    method Tick(elapsed: real, sin: real -> real, cos: real -> real)
      requires Valid() && Trig(sin, cos)
      modifies flameParticles
      ensures Valid()
      ensures forall i :: 0 <= i < |flameParticles| ==>
        var p := flameParticles[i];
        p.currentSpread == Pursue(old(p.currentSpread), TargetSpread(audioVolume)) &&
        p.position == p.RenderAt(p.currentSpread, elapsed, sin, cos)
    {
      var n := |flameParticles|;
      for i := 0 to n
        invariant forall j :: 0 <= j < i ==>
          var p := flameParticles[j];
          p.currentSpread == Pursue(old(p.currentSpread), TargetSpread(audioVolume)) &&
          p.position == p.RenderAt(p.currentSpread, elapsed, sin, cos)
        invariant forall j :: i <= j < n ==>
          flameParticles[j].currentSpread == old(flameParticles[j].currentSpread)
        invariant Valid()
      {
        var flame := flameParticles[i];
        flame.Advance(audioVolume, elapsed, sin, cos);
      }
    }
  }

  /** Three vertices, two of them in one cell, give two anchors and so six flame particles. */
  lemma ThreeVerticesSixFlames()
    ensures GroupSize * |AnchorsOf(Candle([Point(0.0, 0.0, 0.0), Point(0.0, 1.0, 0.0), Point(1.0, 0.0, 1.0)]))| == 6
  {
    ThreeVertexExample();
  }
}
