/**
  The signal pipeline: once per audio frame the analyser's byte frequency
  magnitudes are averaged and published, divided by 255, as the loudness level.
*/
module Signal {

  /** One entry of the analyser's Uint8Array. */
  type Byte = x: int | 0 <= x < 256

  /** The analyser's FFT size; it exposes half as many frequency bins. */
  const FftSize := 512
  const BinCount := FftSize / 2

  /** Sum of the bins, folded from the front as the source's loop does. */
  function Sum(s: seq<Byte>): int
  {
    if s == [] then 0 else Sum(s[..|s| - 1]) + s[|s| - 1]
  }

  lemma {:induction false} SumBounds(s: seq<Byte>)
    ensures 0 <= Sum(s) <= 255 * |s|
  {
    if s != [] {
      SumBounds(s[..|s| - 1]);
    }
  }

  /** The sum is zero exactly when every bin is zero. */
  lemma {:induction false} SumZero(s: seq<Byte>)
    ensures Sum(s) == 0 <==> forall i :: 0 <= i < |s| ==> s[i] == 0
  {
    if s != [] {
      var init := s[..|s| - 1];
      SumZero(init);
      SumBounds(init);
      assert forall i :: 0 <= i < |init| ==> init[i] == s[i];
    }
  }

  /** The sum reaches its ceiling exactly when every bin is saturated. */
  lemma {:induction false} SumFull(s: seq<Byte>)
    ensures Sum(s) == 255 * |s| <==> forall i :: 0 <= i < |s| ==> s[i] == 255
  {
    if s != [] {
      var init := s[..|s| - 1];
      SumFull(init);
      SumBounds(init);
      assert forall i :: 0 <= i < |init| ==> init[i] == s[i];
    }
  }

  /** The published level: the mean magnitude scaled into [0, 1]. */
  function Level(data: seq<Byte>): (level: real)
    requires |data| > 0
    ensures 0.0 <= level <= 1.0
  {
    SumBounds(data);
    MeanScaled(Sum(data), |data|);
    Sum(data) as real / |data| as real / 255.0
  }

  lemma MeanScaled(sum: int, n: int)
    requires 0 < n && 0 <= sum <= 255 * n
    ensures 0.0 <= sum as real / n as real / 255.0 <= 1.0
    ensures sum as real / n as real / 255.0 == sum as real / (255 * n) as real
  {
    var q := sum as real / n as real;
    assert q * n as real == sum as real;
    assert q <= 255.0;
  }

  /** Silence: the level is zero exactly when every bin is zero. */
  lemma LevelZero(data: seq<Byte>)
    requires |data| > 0
    ensures Level(data) == 0.0 <==> forall i :: 0 <= i < |data| ==> data[i] == 0
  {
    SumZero(data);
    SumBounds(data);
    MeanScaled(Sum(data), |data|);
  }

  /** Full scale: the level is one exactly when every bin is 255. */
  lemma LevelFull(data: seq<Byte>)
    requires |data| > 0
    ensures Level(data) == 1.0 <==> forall i :: 0 <= i < |data| ==> data[i] == 255
  {
    SumFull(data);
    SumBounds(data);
    MeanScaled(Sum(data), |data|);
  }

  /** The averaging loop of the audio callback over the analyser's buffer. */
  method MeasureVolume(data: array<Byte>) returns (volume: real)
    requires data.Length > 0
    ensures volume == Level(data[..])
    ensures 0.0 <= volume <= 1.0
  {
    var sum: int := 0;
    for i := 0 to data.Length
      invariant sum == Sum(data[..i])
    {
      assert data[..i + 1][..i] == data[..i];
      sum := sum + data[i];
    }
    assert data[..data.Length] == data[..];
    volume := sum as real / data.Length as real / 255.0;
  }
}
