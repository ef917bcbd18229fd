# Portfolio page: verified model of its effect logic

The repository is a single React page, `src/pages/Portfolio.jsx`. Nearly
all of it is markup and static content. This project models in Dafny the
few rules that have logic in them, and proves their properties:

- **Pointer trail** (`MouseTrail`, trail.dfy). Every `mousemove` appends the
  pointer position to the trail and keeps the last 15 entries with
  `slice(-15)`. This is a bounded FIFO. The model is a pure function on
  sequences. It is proved for one event and for any stream of events.
- **Trail fade and link opacity** (`Fade`, fade.dfy). A trail marker's
  opacity is `(index+1)/len*0.8` and its scale is `(index+1)/len`. A
  constellation line gets opacity `(1 - d/100)*0.1` when `d < 100`.
- **Particle field** (`Particles`, particles.dfy). The class
  `ParticleField` holds the canvas and the particle pool (`particles.current`).
  `InitParticles` fills the pool with 100 particles, seven random draws per
  particle. `Animate` runs one frame: it moves each particle by its
  velocity, wraps it at the canvas edges, and scans every later particle
  for a line. Each method is proved against specification functions
  (`InitialPool`, `StepAll`, `FrameLinks`), and lemmas about those functions
  state the properties.
- **Gradient colour list** (`Gradient`, gradient.dfy). The expression
  `color.replace('from-','').replace(' via-',', ').replace(' to-',', ')`
  (lines 195 and 211) applies JavaScript's first-occurrence `replace` three
  times. It turns `"from-A via-B to-C"` into `"A, B, C"`.

Modelling choices:

- JavaScript numbers are mathematical reals, so there is no rounding.
- `Math.random()` results are a parameter: a sequence of 700 reals in `[0,1)`, consumed in call order.
- The canvas size is a pair of naturals, since a canvas `width`/`height` is a non-negative integer.
- `Date.now()` is a parameter of each pointer event.
- Drawing calls are not modelled. Instead, a frame returns the lines it would stroke, as `(i, j, squared distance)`, in stroke order.
- `Math.sqrt` is not modelled. The source tests `sqrt(dx²+dy²) < 100`; the model tests `dx²+dy² < 100²`. `Fade.CloseIffSquaredClose` proves the two tests agree for non-negative distances. `Particles.DrawnLinkOpacity` gives every drawn line an opacity in `(0, 0.1]`.

Behaviour of the code worth knowing:

- After a frame, a particle lies in the **closed** box `[0, width] × [0, height]`, not a half-open one. A coordinate that goes below 0 is set to exactly `width` (or `height`). The model follows the code.
- `animate` moves particle `i` and scans `j > i` in the same `forEach` callback. So the distance for a pair `i < j` is measured between `i` *after* its step and `j` *before* its own step. `FrameLinks` and `Drawn` state this exactly.
- Pair `(i, j)` is compared only for `j > i`. So each unordered pair is tested once, and no line is drawn twice in a frame (`FrameDrawsEachClosePairOnce`).
- The gradient rewrite gives `"A, B, C"` when the stops `A` and `B` contain no space and `B` does not begin with `to-` (`ThreeStopGradient`). These conditions are sufficient, not necessary. The rewrite goes wrong when a pattern occurs earlier than intended: a ` via-` inside `A`, or a ` to-` that starts before the end of `B`. For example, `"from-a via-to-b to-c"` gives `"a,, b to-c"` (`MiddleStopStartingWithTo`). All four project colours meet the conditions (`HealthLockGradient` … `LatteHeavenGradient`).
- `animate` returns at line 68, before it schedules the next frame at line 109. So a frame that finds no canvas ends the animation for good; it does not retry on the next frame. The model keeps the canvas fixed for an object's whole life, so this case does not arise in it.

## Model

| member | source | states |
|---|---|---|
| `MouseTrail.SliceNegative` | src/pages/Portfolio.jsx:26 | `slice(n)` for negative `n` keeps the last `min(|s|, -n)` elements in their order |
| `MouseTrail.OnMouseMove` | src/pages/Portfolio.jsx:24-27 | the new trail has length `min(|old|+1, 15)`, is the last that many entries of `old ++ [p]`, ends with the new point, and is `old ++ [p]` when `|old| < 15` |
| `MouseTrail.OnMouseMoveIsFifo` | src/pages/Portfolio.jsx:25-26 | on a trail of at most 15 entries an event appends, or when the trail is full evicts exactly the oldest entry and appends |
| `MouseTrail.DeliverKeepsLast` | src/pages/Portfolio.jsx:19-27 | after any stream of events the trail holds exactly the last `min(|trail|+|events|, 15)` positions of the old trail followed by the event positions, in arrival order |
| `MouseTrail.Deliver` | src/pages/Portfolio.jsx:24-27 | the trail after successive `setMouseTrail` updates, one per event; its meaning is stated by `DeliverKeepsLast` |
| `MouseTrail.TwentyEventsKeepLastFifteen` | src/pages/Portfolio.jsx:25-26 | from the initial empty trail, 20 events leave exactly the positions of the last 15, oldest first |
| `Fade.MarkerOpacity` | src/pages/Portfolio.jsx:262 | marker opacity lies in `(0, 0.8]` and the newest marker gets exactly 0.8 |
| `Fade.MarkerScale` | src/pages/Portfolio.jsx:263 | marker scale lies in `(0, 1]` and the newest marker gets exactly 1 |
| `Fade.MarkerFadeIncreases` | src/pages/Portfolio.jsx:262-263 | a newer marker (greater index) is strictly more opaque and strictly larger |
| `Fade.SinglePointIsFull` | src/pages/Portfolio.jsx:262-263 | a one-point trail draws its point at opacity 0.8 and scale 1 |
| `Fade.LinkOpacity` | src/pages/Portfolio.jsx:97-101 | a line exists exactly when `d < 100`; its opacity then lies in `(0, 0.1]`, and is exactly 0.1 at `d = 0` |
| `Fade.LinkOpacityDecreases` | src/pages/Portfolio.jsx:101 | line opacity strictly decreases as the distance grows |
| `Fade.CloseIffSquaredClose` | src/pages/Portfolio.jsx:95-97 | for `d >= 0`, `d < 100` exactly when `d*d < 100*100` |
| `Particles.NewParticle` | src/pages/Portfolio.jsx:54-62 | given draws in `[0,1)`: `x` in `[0,width)`, `y` in `[0,height)` (exactly 0 on an axis of size 0), `vx`, `vy` in `[-0.25,0.25)`, size in `[0.5,2.5)`, opacity in `[0.2,0.7)`, hue in `[250,310)` |
| `Particles.InitialPool` | src/pages/Portfolio.jsx:51-63 | the pool holds exactly `particleCount` (100) particles, every one in those ranges |
| `Particles.WrapCoord` | src/pages/Portfolio.jsx:79-82 | after the two wrap tests a coordinate lies in `[0, bound]`: `bound` if it was below 0, 0 if it was beyond `bound`, unchanged otherwise |
| `Particles.Wrap` | src/pages/Portfolio.jsx:79-82 | the two sequential `if` statements compute exactly the wrap rule |
| `Particles.StepParticle` | src/pages/Portfolio.jsx:75-82 | whatever the prior position and velocity, the stepped particle lies in `[0,width] x [0,height]` and only its position changes |
| `Particles.StepWrapRule` | src/pages/Portfolio.jsx:75-82 | with `x' = x + vx`, the new `x` is `width` if `x' < 0`, 0 if `x' > width`, otherwise `x'`; the same for `y` |
| `Particles.StepKeepsRanges` | src/pages/Portfolio.jsx:74-82 | a frame preserves the velocity, size, opacity and hue ranges set at initialisation |
| `Particles.StepAll` | src/pages/Portfolio.jsx:74-82 | the pool after one frame has the same length, and entry `k` is particle `k` moved and wrapped |
| `Particles.Dist2` | src/pages/Portfolio.jsx:93-95 | the squared distance `dx*dx + dy*dy`; `CloseIffSquaredClose` justifies testing it against 100² instead of testing `sqrt` against 100 |
| `Particles.RowLinks` | src/pages/Portfolio.jsx:91-106 | the lines the `for j` loop strokes from one particle; its meaning is stated by `RowLinksMembers` and `RowLinksOrdered`, and `Connect` is proved equal to it |
| `Particles.FrameLinks` | src/pages/Portfolio.jsx:74-107 | the lines of the first `k` `forEach` callbacks; its meaning is stated by `FrameLinksMembers`, `FrameLinksOrdered` and `FrameDrawsEachClosePairOnce` |
| `Particles.Connect` | src/pages/Portfolio.jsx:91-106 | the inner loop produces exactly the row of lines from the moved particle to every later particle closer than 100 |
| `Particles.RowLinksMembers` | src/pages/Portfolio.jsx:91-97 | a row holds exactly the lines to particles `j` with `i < j` at squared distance under 100² |
| `Particles.RowLinksOrdered` | src/pages/Portfolio.jsx:91-92 | every line of row `i` starts at `i`, and the row comes in strictly increasing `j` order |
| `Particles.RowLinksReadsLater` | src/pages/Portfolio.jsx:91-92 | a row depends only on the particles after its own index |
| `Particles.FrameLinksMembers` | src/pages/Portfolio.jsx:74-107 | the lines of the first `k` callbacks are exactly the close pairs `i < j` with `i < k` |
| `Particles.FrameLinksOrdered` | src/pages/Portfolio.jsx:74-107 | every line of a frame's first `k` rows starts below `k`, and a frame's lines come in strictly increasing `(i, j)` order |
| `Particles.OrderedConcat` | src/pages/Portfolio.jsx:91 | two ordered runs, the first wholly before the second, concatenate to an ordered run |
| `Particles.FrameDrawsEachClosePairOnce` | src/pages/Portfolio.jsx:91-97 | a frame draws a line for a pair exactly when `i < j` and the pair is closer than 100, never draws a pair twice, and draws nothing for an empty pool |
| `Particles.DrawnLinkOpacity` | src/pages/Portfolio.jsx:95-101 | every drawn line has opacity in `(0, 0.1]` |
| `Particles.ParticleField.constructor` | src/pages/Portfolio.jsx:13 | the pool starts empty |
| `Particles.ParticleField.InitParticles` | src/pages/Portfolio.jsx:44-64 | without a canvas nothing changes; otherwise the canvas is sized to the window and the pool is replaced by the 100 particles of `InitialPool`, keeping the field invariant |
| `Particles.ParticleField.VisitParticle` | src/pages/Portfolio.jsx:74-106 | the callback moves and wraps only the particle at `index` and returns its row of lines |
| `Particles.ParticleField.Animate` | src/pages/Portfolio.jsx:66-107 | without a canvas nothing changes; otherwise every particle is stepped (pool length unchanged), the lines are those of `FrameLinks`, and the invariant that all particles lie on the canvas with their initial attribute ranges is kept |
| `Gradient.IndexFrom` | src/pages/Portfolio.jsx:195 | returns the first occurrence at or after `from`, or none when there is none |
| `Gradient.IndexOf` | src/pages/Portfolio.jsx:195 | returns the first occurrence of the pattern, or none when it does not occur |
| `Gradient.ReplaceFirst` | src/pages/Portfolio.jsx:195 | JavaScript's `replace` with a string pattern; its meaning is stated by `ReplaceAbsent` and `ReplaceAtFirst` |
| `Gradient.GradientColors` | src/pages/Portfolio.jsx:195 | the three chained `replace` calls of lines 195 and 211; `ThreeStopGradient` gives their result on the three-stop form |
| `Gradient.ReplaceAbsent` | src/pages/Portfolio.jsx:195 | `replace` leaves the string unchanged when the pattern is absent |
| `Gradient.ReplaceAtFirst` | src/pages/Portfolio.jsx:195 | `replace` substitutes the first occurrence only and keeps the rest, later occurrences included |
| `Gradient.NoSpacedPatternBefore` | src/pages/Portfolio.jsx:195 | a pattern beginning with a space cannot occur inside a space-free prefix |
| `Gradient.DropFrom` | src/pages/Portfolio.jsx:195 | the first `replace` removes the leading `from-` |
| `Gradient.ReplaceVia` | src/pages/Portfolio.jsx:195 | the second `replace` turns the ` via-` after the first stop into `, ` |
| `Gradient.ReplaceTo` | src/pages/Portfolio.jsx:195 | the third `replace` turns the ` to-` after the middle stop into `, ` |
| `Gradient.ThreeStopGradient` | src/pages/Portfolio.jsx:211 | `"from-A via-B to-C"` becomes `"A, B, C"` for space-free stops `A`, `B` with `B` not starting with `to-` |
| `Gradient.ReplaceToInsideStop` | src/pages/Portfolio.jsx:211 | when the middle stop begins with `to-`, the third `replace` hits the ` to-` formed by the `, ` before that stop |
| `Gradient.MiddleStopStartingWithTo` | src/pages/Portfolio.jsx:211 | `"from-A via-to-B to-C"` becomes `"A,, B to-C"`, not the intended colour list |
| `Gradient.HealthLockGradient` | src/pages/Portfolio.jsx:120 | the first project's gradient becomes `purple-600, violet-600, indigo-600` |
| `Gradient.BankFlowGradient` | src/pages/Portfolio.jsx:129 | the second project's gradient becomes `emerald-600, teal-600, cyan-600` |
| `Gradient.WealthGrowGradient` | src/pages/Portfolio.jsx:138 | the third project's gradient becomes `violet-600, purple-600, fuchsia-600` |
| `Gradient.LatteHeavenGradient` | src/pages/Portfolio.jsx:147 | the fourth project's gradient becomes `orange-500, rose-500, pink-600` |

## Left out

- Canvas drawing (`clearRect`, `arc`, `fill`, `stroke`, `lineWidth`, the `hsla(...)` strings): these are rendering calls with no logic. A frame returns its lines instead.
- `requestAnimationFrame` / `cancelAnimationFrame` scheduling, the `mousemove` listener registration and removal, and the React hooks: host event-loop plumbing. `Animate` models a single call. A run is repeated calls only while a canvas is present: a frame without one schedules no next frame (see above).
- `setMousePosition`: it only stores the latest position, so there is nothing to prove.
- `Math.random`, `Date.now`, `window.innerWidth`/`innerHeight`: these are parameters. Trail ids are not claimed unique, because two events in the same millisecond share one.
- `Math.sqrt` and floating-point rounding: numbers are reals and the distance test uses the squared distance (see above).
- Canvas attachment: the canvas is either present or absent for an object's whole life. The model does not capture React attaching or detaching the ref between calls. Resizing is not modelled either, since the code sizes the canvas only once, at lines 48-49.
- Particles are datatype values in a `seq` field that the methods reassign. Each JavaScript particle object is separate, so nothing is aliased and no behaviour is lost.
- `FloatingOrb` (trigonometry of the wall clock), `GradientText`, `ProjectCard` markup, the page markup, and the `projects`, `achievements` and `skills` literals (lines 112-171): these are content or presentation. Only the four `color` strings appear, in the gradient lemmas.
- `$` patterns in `replace`: `ReplaceFirst` inserts the replacement as it is, while JavaScript expands `$&`, `$$` and the like in it. The page's replacements (`''` and `', '`) hold no `$`, so the model agrees with it on the page.
- `Gradient.ThreeStopGradient`: the lemma covers gradient specs of the three-stop form only. That is the form of every project on the page.
