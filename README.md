# Pointer effects of the elume landing page, modelled in Dafny

The landing page's effect components live in `src/components/effects.tsx`. This
project models the parts of it that compute something:

- **`AdvancedParticleSystem`**: a pointer trail. A pointer move spawns a
  particle at the pointer when a random draw exceeds 0.95. The spawn keeps the
  last 20 existing particles and appends the new one. Every 16 ms a tick moves
  each particle by its velocity, takes 0.02 off its life and multiplies its size
  by 0.99, then drops the particles whose life is no longer positive.
  Module `Particles` (`particles.dfy`). The list is the `particles` field of the
  class `AdvancedParticleSystem`. The two transforms, `Spawned` and `TickList`,
  are functions on `seq<Particle>`, because the source writes them as
  expressions handed to `setParticles`.
- **`AnimatedCounter`**: a frame loop that shows `floor(progress * target)`.
  Progress is the elapsed fraction of `duration` seconds, capped at 1. The loop
  asks for another frame until progress reaches 1. Module `Counter`
  (`counter.dfy`). The `requestAnimationFrame` chain is the method `RunFrames`,
  which is fed a sequence of frame timestamps.
- **`MagneticElement`** and **`LiquidCard`**: hover offsets. Each one is the
  pointer's distance from the centre of the element's box, times a factor.
  The magnetic element moves only while hovered. The liquid card clamps each
  axis to [-2, 2]. Leaving the element resets the offset to 0 in both.
  Module `Hover` (`hover.dfy`).

`Math.random()` draws, frame timestamps, pointer coordinates and bounding boxes
are parameters. Coordinates, life, size and times are exact `real`s.

The spawn at src/components/effects.tsx:169 is commented `// Keep only last 20`,
but `[...prev.slice(-20), newParticle]` keeps the last 20 old particles and then
appends the new one, so the list can hold 21. The model follows the code:
`CAPACITY` is 21.

## Model

| member | source | states |
|---|---|---|
| `Particles.CreateParticle` | src/components/effects.tsx:155-164 | A new particle sits at the pointer with life 1 and the id draw as its id. Its colour is one of the two palette values. Given draws in [0, 1), vx and vy lie in [-1, 1) and size lies in [2, 8), so the particle is live. |
| `Particles.SliceLast` | src/components/effects.tsx:169 | For a positive n (the spawn uses 20), `slice(-n)` returns the suffix of length min(n, \|s\|). |
| `Particles.Spawned` | src/components/effects.tsx:169 | After a spawn the list holds min(20, n) + 1 ≤ 21 particles. The new particle is last. Before it come the last min(20, n) old particles in their original order. With at most 20 old particles nothing is evicted. |
| `Particles.MouseMoved` | src/components/effects.tsx:166-170 | With a gate draw ≤ 0.95 the list is unchanged. Otherwise it holds min(20, n) + 1 particles: the last min(20, n) old ones followed by the new particle at the pointer. A move keeps the invariant. |
| `Particles.Advance` | src/components/effects.tsx:175-180 | One tick keeps a particle's id, colour and velocity. Life strictly decreases. A positive size strictly shrinks and stays positive. |
| `Particles.Advanced` | src/components/effects.tsx:175-180 | The map keeps the length, and position i holds particle i advanced one step. |
| `Particles.Alive` | src/components/effects.tsx:181 | The filter never lengthens the list, and every particle it keeps has life > 0. |
| `Particles.TickList` | src/components/effects.tsx:174-181 | A tick never lengthens the list, and every particle left has life > 0. |
| `Particles.AliveIndices` | src/components/effects.tsx:181 | The filter keeps exactly the particles with life > 0 (both directions), at strictly increasing positions, so their relative order is unchanged. |
| `Particles.TickIndices` | src/components/effects.tsx:174-182 | A tick keeps exactly the particles whose life exceeds 0.02 (both directions), each advanced one step, in their original order. The count never increases. |
| `Particles.TickPreservesInv` | src/components/effects.tsx:173-182 | A tick preserves "at most 21 particles, each with 0 < life ≤ 1, size > 0 and a palette colour". |
| `Particles.SpawnPreservesInv` | src/components/effects.tsx:155-169 | Spawning a live particle onto a list of live particles, of any length, gives a live list of at most 21 particles. |
| `Particles.RunPreservesInv` | src/components/effects.tsx:166-182 | Any interleaving of pointer moves (with draws in [0, 1)) and ticks keeps the list within 21 live particles. |
| `Particles.ClosedGateNeverGrows` | src/components/effects.tsx:167-170 | If no gate draw exceeds 0.95, no sequence of pointer moves and ticks lengthens the list. |
| `Particles.OpenGateFills` | src/components/effects.tsx:166-170 | If every gate draw exceeds 0.95, each pointer move adds exactly one particle until the list holds 21. After that the length stays at 21. |
| `Particles.AdvancedParticleSystem.constructor` | src/components/effects.tsx:143-152 | The particle list starts empty and satisfies the invariant. |
| `Particles.AdvancedParticleSystem.HandleMouseMove` | src/components/effects.tsx:166-171 | The list becomes `MouseMoved(old list, pointer, draws)`: unchanged for a gate draw ≤ 0.95, otherwise the spawn. The invariant is kept. |
| `Particles.AdvancedParticleSystem.AnimateParticles` | src/components/effects.tsx:173-183 | The list becomes `TickList(old list)`. It is no longer than before, and the invariant is kept. |
| `Counter.Progress` | src/components/effects.tsx:104 | Progress is at most 1, and non-negative for a non-negative elapsed time. It equals 1 exactly when elapsed ≥ duration·1000. Below 1 it is the exact elapsed fraction. |
| `Counter.CountAt` | src/components/effects.tsx:106 | The shown count is the floor of progress·target. For progress in [0, 1] and target ≥ 0 it lies in [0, ⌊target⌋]. At progress 1 it equals ⌊target⌋. |
| `Counter.ProgressMonotone` | src/components/effects.tsx:104 | Later frames never have smaller progress. |
| `Counter.CountMonotone` | src/components/effects.tsx:106 | For target ≥ 0, larger progress never shows a smaller count. |
| `Counter.FractionalTargetEndsBelow` | src/components/effects.tsx:106 | With target 4.9 (the average rating in the stats section of the alternate page) the count never exceeds 4 and ends on 4. It never shows 4.9. |
| `Counter.FirstStartIsFirstNonZero` | src/components/effects.tsx:101-103 | `FirstStart`, the start time after a run of frames, is one of their timestamps: the first non-zero one. It is 0 exactly when every timestamp was 0. |
| `Counter.FirstStartAppend` | src/components/effects.tsx:103 | One more frame becomes the start exactly when the start so far is 0 (falsy); otherwise the start stays. |
| `Counter.EarlierFramesBelow` | src/components/effects.tsx:103-110 | Over non-decreasing timestamps, if every earlier frame was short of the span, it still is after the start moves to a later frame. |
| `Counter.AnimatedCounter.constructor` | src/components/effects.tsx:98-113 | The count starts at 0 with no start time, and the first frame is requested. |
| `Counter.AnimatedCounter.Animate` | src/components/effects.tsx:102-111 | The first frame sets the start time; so does a frame after a start time of 0, which JavaScript treats as unset. The count becomes `CountAt(Progress(...))`. Another frame is requested exactly when elapsed < duration·1000. When the loop stops, the count is ⌊target⌋. For target ≥ 0 the count stays in [0, ⌊target⌋]. |
| `Counter.AnimatedCounter.RunFrames` | src/components/effects.tsx:101-113 | Frames run over non-decreasing timestamps while one is requested. At least one frame runs when any is given; with no timestamps nothing changes (no start time, the same count, a frame still requested). The start time is the first non-zero timestamp among the frames run, or 0 if all were 0. Every frame before the last was less than duration·1000 ms after that start. The loop stops exactly when the last frame run was at least duration·1000 ms after the start, and then shows ⌊target⌋. After every run of at least one frame, the count shown is `CountAt(Progress(last timestamp − start, duration), target)`, whether the loop stopped or not. If it has not stopped, every timestamp was used. |
| `Hover.Pull` | src/components/effects.tsx:235-239 | For a positive factor the offset has the sign of the pointer's distance from the centre. The offset is 0 at the centre or with factor 0. |
| `Hover.PullInsideBox` | src/components/effects.tsx:234-239 | While the pointer is inside the box, the offset is at most factor·extent/2 in magnitude. |
| `Hover.Clamp` | src/components/effects.tsx:320-321 | The result lies in [-2, 2]. It equals the input exactly when the input lies in [-2, 2]. Otherwise it is the nearer bound. |
| `Hover.ClampMonotoneIdempotent` | src/components/effects.tsx:320-321 | Clamping preserves order, and clamping twice is the same as clamping once. |
| `Hover.MagneticElement.constructor` | src/components/effects.tsx:228-229 | The element starts at offset (0, 0) and not hovered. |
| `Hover.MagneticElement.MouseEnter` | src/components/effects.tsx:253 | Entering sets hovered and leaves the offset alone. |
| `Hover.MagneticElement.MouseMove` | src/components/effects.tsx:231-242 | When not hovered the offset is unchanged. When hovered it becomes (pointer − box centre)·strength on each axis. With strength ≥ 0 and the pointer inside the box, the offset is at most strength·width/2 horizontally and strength·height/2 vertically. |
| `Hover.MagneticElement.MouseLeave` | src/components/effects.tsx:244-247 | After leaving, the element is not hovered and its offset is (0, 0). |
| `Hover.LiquidCard.constructor` | src/components/effects.tsx:311-312 | The card starts at offset (0, 0). |
| `Hover.LiquidCard.MouseMove` | src/components/effects.tsx:314-325 | Each axis becomes the clamped (pointer − box centre)·intensity, so it always lies in [-2, 2]. |
| `Hover.LiquidCard.MouseLeave` | src/components/effects.tsx:327-330 | After leaving, the offset is 0 on both axes. |

## Left out

- `Math.random()` is not modelled; its draws are parameters whose range [0, 1) is a precondition. The particle `id` is such a draw, so ids are not assumed unique.
- Floating point is not modelled: 0.02, 0.99, the 0.95 gate and the divisions are exact reals. With IEEE-754 doubles the number of ticks until a particle expires can differ from the exact count, so the model claims no expiry tick count.
- `setInterval`/`clearInterval`, `addEventListener`/`removeEventListener` and `requestAnimationFrame` scheduling are event-loop wiring. They are not modelled beyond the frame loop `RunFrames`.
- DOM reads are not modelled: `getBoundingClientRect` becomes the `Rect` parameter, and `toLocaleString` formatting of the count is left out.
- Rendering and framer-motion props are left out. This covers the particle `motion.div` styles, the spring transitions, and the LiquidCard `scale`/`borderRadius` choice at src/components/effects.tsx:336 and 350-354. These are inputs to a foreign animation library.
- `ScrollProgress`, `FloatingParticles`, `InteractiveButton`, `BlobBackground`, `ShimmerCard`, `LiquidMorphBackground`, `FloatingActionOrbs` and `TextReveal` are left out. They are decoration with no state beyond what they render.
- The page files (src/app/page.tsx, src/app/page_new.tsx) are left out as layout. This includes the section index computed from the scroll position.
- Counter.AnimatedCounter.Animate: requires `duration > 0`. Every caller passes 2 (the default); with 0 the source divides by zero and shows NaN, which the model does not represent.
- Counter.AnimatedCounter.Animate: requires frame timestamps that never go backwards, as `requestAnimationFrame` guarantees. With an earlier timestamp the source would show a negative count.
- Hover.MagneticElement.MouseMove: reads the current `isHovered`. In the source the handler reads the value captured by the render that created it, which React refreshes on the next render; the model does not represent that one-render staleness.
- `Math.min`/`Math.max` on NaN are not modelled, because the reals here have no NaN.
