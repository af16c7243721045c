# Candle flames that follow the microphone: a Dafny model

This project models the reactive core of `script.js`, a browser script that
shows a birthday cake and puts small particle flames on its candles. The
flames spread out when the microphone is loud. Three pieces of sequential
logic drive the effect, and each one is modelled and proved here:

- **Signal** (`signal.dfy`): the audio callback. It sums the analyser's byte
  frequency magnitudes in a loop and publishes `sum / length / 255` as the
  loudness `audioVolume`.
- **Anchors** (`anchors.dfy`): the candle vertex deduplication in the
  model-load callback. Each vertex is raised by 0.1. It is keyed by its x and
  z printed with `toFixed(2)`. Per key, a JS `Map` keeps the highest vertex,
  replacing an entry only when a later vertex is strictly higher. The map's
  values, in key-insertion order, become the flame anchors.
- **Flames** (`flames.dfy`, `pursuit.dfy`): the particle factory and the
  per-frame animation. Each anchor spawns 3 particles with random direction,
  phase, wiggle amplitude and wiggle speed. Every frame, a particle's
  `currentSpread` moves toward `audioVolume * 20`. When rising it closes 0.2
  of the gap; otherwise it closes 0.008 of the gap. The drawn position is
  the base, plus the direction times the spread, plus small sine and cosine
  terms.
- **Scene** (`scene.dfy`): the script's shared state (`audioVolume`,
  `flameParticlesArray`, the analyser buffer) as the class `Experience`. Its
  three callbacks are methods that keep an invariant: the level lies in
  [0, 1], every particle is distinct and well-formed, and every spread lies
  in [0, 20].

`Geometry` (`geometry.dfy`) holds the `Point` value type shared by the rest.

Modelling choices, stated in the system's terms:

- Numbers are `real`. Analyser entries are bytes (`Signal.Byte`, 0..255).
- The `toFixed(2)` key is modelled as the printed sign plus the magnitude
  rounded to hundredths, with ties going up. Two keys are equal strings
  exactly when these parts are equal. So -0.001 (printed "-0.00") and 0.001
  ("0.00") fall in different cells, and the model keeps that behaviour
  (`Anchors.NegativeZeroCellIsSeparate`).
- The vertical direction draw is `Math.random() - 0.2` (script.js:201). It
  lies in [-0.2, 0.8), so before normalisation the direction leans upward
  rather than downward.
- `Math.random()` draws are parameters: `draws(k)` holds the six draws that
  shape the `k`-th new particle, each in [0, 1). `Math.sin`, `Math.cos` and
  the length used by `Vector3.normalize()` are function parameters, with
  sine and cosine values in [-1, 1]. Following three.js, `normalize()`
  divides by the length, or by 1 when the length is 0.
- The particle's write-once `userData` fields are `const` fields of
  `Flames.Particle`. The frame loop can only change `currentSpread` and the
  position buffer, and the language enforces that.

## Model

| member | source | states |
|---|---|---|
| `Signal.Sum` | script.js:24-27 | the loop's running total, defined as a fold over the bins; its bounds and extreme cases are stated by `SumBounds`, `SumZero` and `SumFull` |
| `Signal.SumBounds` | script.js:24-27 | the accumulated sum of n bytes lies between 0 and 255·n |
| `Signal.SumZero` | script.js:24-27 | the sum is 0 exactly when every bin is 0 |
| `Signal.SumFull` | script.js:24-27 | the sum is 255·n exactly when every bin is 255 |
| `Signal.Level` | script.js:28 | the published level `sum / length / 255` lies in [0, 1] for any non-empty byte buffer |
| `Signal.MeanScaled` | script.js:28 | dividing by the length and then by 255 is dividing by 255·length, and the result lies in [0, 1] |
| `Signal.LevelZero` | script.js:24-28 | the level is 0 exactly when every bin is 0 (both directions) |
| `Signal.LevelFull` | script.js:24-28 | the level is 1 exactly when every bin is 255 (both directions) |
| `Signal.MeasureVolume` | script.js:24-28 | the summing loop over the buffer returns exactly `Level` of its contents, hence a value in [0, 1] |
| `Anchors.ToFixed2` | script.js:151 | a coordinate's printed key has a minus sign exactly for negative values and the nearest number of hundredths to its magnitude, the larger on a tie |
| `Anchors.KeyOf` | script.js:151 | the `"<x>|<z>"` key, as the pair of the two printed coordinates; `SameFixed2Close` and `NegativeZeroCellIsSeparate` state what sharing a key means |
| `Anchors.Raise` | script.js:147-149 | the raised point lies in the same cell as its vertex |
| `Anchors.SameFixed2Close` | script.js:151 | two coordinates with the same printed key are less than 0.01 apart |
| `Anchors.NegativeZeroCellIsSeparate` | script.js:151 | -0.001 and 0.001 both round to 0 hundredths but get different keys, because of the sign |
| `Anchors.Visit` | script.js:151-154 | one loop iteration on the map: a new key is appended, a strictly higher point replaces its entry, otherwise nothing changes; its effects are stated by `KeptNew`, `KeptReplaced`, `KeptExtends` and `KeysOfSnoc` |
| `Anchors.ScanAll` | script.js:146-155 | the map after the whole loop; its shape and entries are stated by `ScanAllWellFormed` and `ScanAllInvariant` |
| `Anchors.KeysOfSnoc` | script.js:146-151 | visiting one more vertex adds exactly its key to the set of keys seen |
| `Anchors.ScanAllWellFormed` | script.js:144-155 | after the loop each key appears once in the insertion order, the order and the entries hold the same keys, these are exactly the keys of the vertices, and there are no more keys than vertices |
| `Anchors.KeptNew` | script.js:152-153 | a vertex with a key not yet in the map is stored, raised, as its key's entry |
| `Anchors.KeptReplaced` | script.js:152-153 | a vertex strictly higher than its key's entry replaces it and becomes the highest and first-highest of its key |
| `Anchors.KeptExtends` | script.js:152-154 | a vertex that is not strictly higher (or has another key) leaves the entry in place, and the entry is still the highest |
| `Anchors.ScanAllInvariant` | script.js:146-155 | every map entry is a raised vertex of its key, no vertex of that key is higher, and every earlier vertex of that key is strictly lower, so the first of equal maxima stays |
| `Anchors.ValuesOf` | script.js:157 | spreading `pointsMap.values()` of a map whose keys are listed once and whose entries lie in their own key's cells gives one point per key: the `i`-th value lies in the `i`-th inserted key's cell, so no two values share a cell |
| `Anchors.EntriesInOwnCell` | script.js:151-155 | after the loop, every map entry lies in the cell of the key it is stored under |
| `Anchors.AnchorsOf` | script.js:139-160 | the anchors: none for a missing mesh, else the scanned map's values; stated by `ExtractAnchors` and the anchor lemmas below |
| `Anchors.ExtractAnchors` | script.js:139-160 | the loop with its in-place map updates yields exactly `AnchorsOf(mesh)`, the values of the scanned map, and nothing when the candle mesh is missing |
| `Anchors.KeptKey` | script.js:151-153 | a kept point carries the key it is stored under |
| `Anchors.KeptHighest` | script.js:152 | no vertex of a key is higher than that key's kept point |
| `Anchors.NoVerticesNoAnchors` | script.js:137-160 | a missing candle mesh or an empty vertex list yields no anchors |
| `Anchors.AnchorCount` | script.js:144-157 | there are at most as many anchors as vertices, and at least one when there is a vertex |
| `Anchors.AnchorsHaveDistinctKeys` | script.js:151-157 | no two anchors share a cell key |
| `Anchors.EveryCellHasHighestAnchor` | script.js:146-157 | every vertex's cell has an anchor at least as high as the raised vertex |
| `Anchors.AnchorIsFirstHighestVertex` | script.js:147-157 | every anchor is an input vertex with the same x and z and y plus 0.1; it is the highest of its cell and the first such vertex on ties |
| `Anchors.EntryIsFirstHighestVertex` | script.js:147-154 | a kept entry is a raised vertex of its own cell, no vertex of that cell is higher, and earlier ones are strictly lower |
| `Anchors.ThreeVertexExample` | script.js:146-157 | vertices (0,0,0), (0,1,0), (1,0,1) give the anchors (0,1.1,0) and (1,0.1,1), in that order |
| `Pursuit.TargetSpread` | script.js:252 | a level in [0, 1] gives a target spread in [0, 20] |
| `Pursuit.TargetMonotone` | script.js:252 | a louder level never gives a smaller target |
| `Pursuit.Pursue` | script.js:254-258 | one step lands between the old spread and the target (no overshoot), stays strictly on its side of the target, and leaves a spread equal to the target unchanged |
| `Pursuit.PursueGap` | script.js:254-258 | the remaining gap becomes exactly 0.8 of the old gap when rising and 0.992 of it otherwise, and the step never switches between the two cases |
| `Pursuit.PursueExamples` | script.js:252-258 | from 0 at level 1 the spread becomes 4.0; from 5 at level 0 it becomes 4.96 |
| `Pursuit.Frames` | script.js:248-258 | the spread after one frame per level; stated by `FramesStayInRange`, `ConstantLevelGap` and `NeverSnaps` |
| `Pursuit.FramesStayInRange` | script.js:252-258 | with levels in [0, 1], a spread starting in [0, 20] stays in [0, 20] over any number of frames |
| `Pursuit.FramesRepeatStep` | script.js:248-258 | a run of frames at one level is one frame followed by the rest of the run |
| `Pursuit.Repeat` | script.js:252 | holding the level constant for n frames supplies n copies of that level |
| `Pursuit.ConstantLevelGap` | script.js:252-258 | at a constant level the gap after n frames is 0.8ⁿ (rising) or 0.992ⁿ (otherwise) times the starting gap |
| `Pursuit.NeverSnaps` | script.js:252-258 | at a constant level, a spread off the target never lands exactly on it |
| `Flames.RawDirection` | script.js:199-202 | with draws in [0, 1), the raw direction has x and z in [-0.5, 0.5) and y in [-0.2, 0.8) |
| `Flames.Normalize` | script.js:203 | `Vector3.normalize()` with the length supplied by the caller; stated by `NormalizeRescales` and `NormalizeUnit` |
| `Flames.NormalizeRescales` | script.js:203 | normalising divides every component by the same positive length (scaling back restores the raw vector); the zero vector stays zero |
| `Flames.NormalizeUnit` | script.js:203 | given the true positive length (its square is the squared length), the normalised vector has squared length 1 |
| `Flames.Phase` | script.js:208 | a draw in [0, 1) gives a phase in [0, 2π) |
| `Flames.WiggleAmplitude` | script.js:209 | a draw in [0, 1) gives a wiggle amplitude in [0.01, 0.03) |
| `Flames.WiggleSpeed` | script.js:210 | a draw in [0, 1) gives a wiggle speed in [2, 4) |
| `Flames.ScaledSine` | script.js:261 | a sine value scaled by a non-negative amplitude stays within that amplitude |
| `Flames.Particle.constructor` | script.js:198-212 | a new particle has its anchor as base position and drawn position, spread 0, the normalised raw direction, and phase, amplitude and speed from its draws |
| `Flames.Particle.RenderAt` | script.js:260-265 | the drawn x and z differ from base + direction·spread by at most 0.01, and y by at most the wiggle amplitude |
| `Flames.Particle.Advance` | script.js:249-268 | one frame sets the spread to one pursuit step toward level·20 and the position buffer to `RenderAt` of the new spread |
| `Flames.CreateGroup` | script.js:174-219 | the factory returns exactly 3 fresh, distinct particles, each based at the anchor with spread 0 and built from its own draws |
| `Flames.SpawnedDirectionIsUnit` | script.js:199-207 | a spawned particle's direction has unit length whenever the length supplied for its raw direction is the true positive one |
| `Flames.SpawnedIsWellMade` | script.js:205-212 | a freshly spawned particle has spread 0, its anchor as base, and phase, amplitude and speed in their documented ranges |
| `Scene.Experience.constructor` | script.js:6-7 | at start the level is 0 and there are no flames |
| `Scene.Experience.UpdateAudio` | script.js:22-28 | one audio frame fills the buffer and publishes `Level` of it; the invariant (level in [0, 1]) is kept |
| `Scene.Experience.AddGroup` | script.js:162-165 | a group of 3 new particles for one anchor is appended and the particles already there are untouched |
| `Scene.Experience.LoadCandles` | script.js:136-166 | exactly 3 new particles are appended per anchor, in anchor order; the `k`-th new one is spawned at anchor `k / 3` from draws `k`; a missing mesh adds none |
| `Scene.Experience.Tick` | script.js:248-270 | every particle's spread takes one pursuit step toward `audioVolume·20` and its position is re-rendered; spreads stay in [0, 20] and nothing else changes |
| `Scene.ThreeVerticesSixFlames` | script.js:139-166 | the three-vertex example yields 2 anchors and therefore 6 particles |

## Left out

- Scene, renderer, camera, OrbitControls, lights, floor and the resize handler (script.js:40-109, 221-233) are rendering set-up with no logic to verify.
- GLTF loading, mesh traversal, shadow flags and camera framing from the bounding box (script.js:111-135) are asynchronous library calls. The model receives the candle mesh as a value: either missing, or its vertex list.
- The `matrixWorld` transform (script.js:140-141) is not modelled; vertices are taken as already in world space.
- Microphone, `AudioContext` and analyser set-up and the `try/catch` logging (script.js:9-21, 33-38) are device I/O. A failed set-up means `UpdateAudio` is never called, so the level stays at its initial 0.
- `requestAnimationFrame` scheduling, `THREE.Clock` and the unused `deltaTime` (script.js:29, 236-246) are host scheduling. The elapsed time is a parameter of `Tick`.
- The two colour draws, the HSL colour and the `PointsMaterial` (script.js:182-196) are purely visual.
- `flame.forEach(p => scene.add(p))` and `position.needsUpdate` (script.js:165, 269) only hand objects to the renderer.
- IEEE double rounding, and the Float32 rounding of the position buffer, are not modelled; arithmetic is exact over the reals. Likewise `Math.PI` is its printed decimal value.
- `toFixed` switches to exponent notation for magnitudes of 10²¹ or more; candle coordinates never come near that, and the model does not cover it.
- Flames.Normalize: the square root is outside the model, so the length comes from the caller. `NormalizeUnit` proves unit length only when that length is the true one. The `length: Point -> real` parameter of `CreateGroup` and `LoadCandles` is unconstrained, so the model admits any divisor, even a negative one. The raw direction is zero when the draws are exactly 0.5, 0.2 and 0.5; three.js then leaves it zero, and so does the model (`NormalizeRescales`).
- Signal.Level: requires a non-empty buffer. The analyser always exposes 256 bins (`fftSize` 512), and an empty buffer would give NaN in JavaScript, which the model does not represent.
- Pursuit.ConstantLevelGap: gives the exact geometric gap after n frames, but no specific frame count for reaching a tolerance.
