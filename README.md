# Portfolio scene choreography, modelled in Dafny

This project models the logic of a portfolio web page's animated scene and
text, and proves properties of it:

- the 3D scene (`components/ThreeScene.tsx`): the piecewise smoothstep
  keyframe interpolation `interpolate`; the camera rig's per-frame step,
  which follows the interpolated camera pose plus a pointer parallax; the
  CyberCore's per-frame step, which looks up the artifact configuration for
  the active project, sets the turntable rotation and tilt from the scroll
  value and pulls the group scale toward a breathing and "explosion" target;
  and the two material consumers (core geometry and data ribbons), which
  blend colour, distortion and emission toward the configuration and
  accumulate rotations;
- the letter-stagger indices and delays of `TextReveal`
  (`components/TextReveal.tsx`);
- the label, bar width and entrance delay of `SkillBar`
  (`components/SkillBar.tsx`).

Numbers are Dafny reals, not IEEE doubles. `Math.sin` is a parameter
`sin: real -> real`. The lemmas that need facts about it require
`Trig.SineLaws(sin)`: values in [-1, 1], `sin(0) = 0`, and non-negative on
[0, PI]. `Math.PI` is the real 3.141592653589793, the decimal JavaScript
prints for it. That number lies just below pi, so `sin(PI)` is a tiny
positive number, not 0, and no law claims otherwise. The clock
(`elapsedTime`), the frame duration (`delta`), the scroll progress, the
pointer and the active project id are all parameters of the frame steps.

Modules, one per concept:

| module | models |
|---|---|
| `Vectors` | `Vector3.lerp`, `lerpVectors`, `Color.lerp`, `MathUtils.lerp`, and lemmas about repeated lerp steps |
| `Keyframes` | `interpolate` |
| `Trig` | `Math.PI` and the assumed laws of `Math.sin` |
| `Artifact` | `ArtifactConfig`, `DEFAULT_CONFIG`, the project-id switch, hex colours |
| `CyberCore` | the CyberCore group's frame step (class `CyberCore`) |
| `Materials` | the `CoreGeometry` and `DataRibbon` frame steps (classes) |
| `Camera` | the `CameraRig` frame step (class `CameraRig`) and the camera table |
| `TextReveal` | word split, stagger indices and delays, the heading's label |
| `SkillBar` | level label, bar width, entrance delay |

The per-frame callbacks change state in place, so each is a class whose
method states the new state as a function of the old one. The properties
are lemmas about those functions.

`interpolate` returns a fresh vector when some segment brackets the value.
Otherwise it returns the table's own last vector, and the camera step then
adds the parallax offset to that same object. The model keeps the table as
a field of `CameraRig` and writes the shifted vector back into it on such
frames. `Camera.StaleFramesDrift` proves the resulting drift.

### Behaviour of the code worth knowing

- `interpolate` returns the **last** waypoint for any value outside the
  table's time range, below the first time as well as above the last, not the
  nearest endpoint. A scroll value below 0 gives the contact pose
  (`Keyframes.InterpolateOutOfRange`).
- The camera and material blends use the raw fractions `2 * delta` and
  `delta`, with no clamp to 1. `Camera.StepUnclamped` proves that a long
  frame overshoots the target or moves away from it.
- No frame duration is clamped, and no spring smooths any value of the scene.
- The configuration is replaced at once each frame. Only its consumers blend
  toward it, and the ribbons use `ringSpeed` unblended.
- The group scale closes a fixed 0.1 of its gap per frame, whatever the frame
  duration. The mesh and ribbon rotations, by contrast, accumulate
  `delta * rate`, so they do not depend on the frame rate
  (`Materials.AccumulateSplitFree`).
- Nothing validates the waypoint tables. Non-empty, strictly increasing
  tables are a precondition here (`Keyframes.WellFormed`).

## Model

| member | source | states |
|---|---|---|
| `Keyframes.Interpolate` | components/ThreeScene.tsx:192-204 | `interpolate`: blends the first bracketing segment, else returns the last waypoint; its properties are `Keyframes.InterpolateAtWaypoint` (waypoints hit exactly), `Keyframes.InterpolateNoOvershoot` (in range, between the bracketing waypoints), `Keyframes.InterpolateOutOfRange` (last waypoint outside the range) and `Keyframes.InterpolateContinuous` |
| `Keyframes.SegmentValue` | components/ThreeScene.tsx:196-200 | `lerpVectors(start.v, end.v, ease)` for one segment; it gives the segment's start at its start time and its end at its end time (`Keyframes.InterpolateContinuous`), and stays between them (`Keyframes.InterpolateNoOvershoot`) |
| `Keyframes.SegmentFrom` | components/ThreeScene.tsx:193-201 | the scan returns the first segment from `i` on whose closed interval contains the value, and no earlier one does; `None` means no segment from `i` on contains it |
| `Keyframes.Ease` | components/ThreeScene.tsx:199 | the smoothstep ease maps [0, 1] into [0, 1], and is exactly 0 at 0 and 1 at 1 |
| `Keyframes.Progress` | components/ThreeScene.tsx:197 | local progress lies in [0, 1] inside the segment, and is 0 at its start and 1 at its end |
| `Keyframes.InterpolateAtWaypoint` | components/ThreeScene.tsx:192-204 | evaluated at any waypoint's time, `interpolate` returns exactly that waypoint's vector (first, interior and last) |
| `Keyframes.InterpolateNoOvershoot` | components/ThreeScene.tsx:193-200 | for a value within the table's time range, a bracketing segment exists (tables of two or more), and each coordinate of the result lies between that segment's two waypoints; a one-entry table returns its entry |
| `Keyframes.InterpolateOutOfRange` | components/ThreeScene.tsx:192-204 | below the first time or above the last, no segment matches and the last waypoint's vector is returned |
| `Keyframes.InterpolateContinuous` | components/ThreeScene.tsx:193-201 | at an interior waypoint, the segments ending and starting there both give that waypoint's vector |
| `Vectors.Vec3.Lerp` | components/ThreeScene.tsx:227 | `Vector3.lerp` / `Color.lerp`, componentwise `Vectors.Mix`; per-coordinate properties in `Camera.StepApproaches`, `Camera.StepNoTeleport`, `Materials.ColorNoSnap` |
| `Vectors.Mix` | components/ThreeScene.tsx:34 | `a + (b - a) * alpha`; its properties are `Vectors.LerpGap`, `Vectors.LerpBetween`, `Vectors.LerpNoSnap` and `Vectors.LerpDiverges` |
| `Vectors.LerpGap` | components/ThreeScene.tsx:227 | after a step by `alpha` the remaining gap to the target is `1 - alpha` times the old gap |
| `Vectors.MathLerp` | components/ThreeScene.tsx:35 | `MathUtils.lerp`'s `(1 - t) x + t y`; `Vectors.MathLerpIsMix` shows it equals `Vectors.Mix` |
| `Vectors.LerpRepeat` | components/ThreeScene.tsx:167 | `n` steps toward a fixed target; its properties are `Vectors.LerpRepeatGap` and `Vectors.LerpRepeatApproaches` |
| `Vectors.LerpBetween` | components/ThreeScene.tsx:227 | a lerp step by a fraction in [0, 1] lands between start and target and never increases the distance to the target |
| `Vectors.LerpNoSnap` | components/ThreeScene.tsx:34 | a step by a fraction below 1 never lands on a target it did not start at |
| `Vectors.LerpDiverges` | components/ThreeScene.tsx:227 | a step by a fraction above 2 moves further from the target |
| `Vectors.LerpRepeatGap` | components/ThreeScene.tsx:167 | after `n` steps toward a fixed target, the gap is `(1 - alpha)^n` times the first gap |
| `Vectors.LerpRepeatApproaches` | components/ThreeScene.tsx:167 | with a fraction in [0, 1], repeated steps never move away from the target and stay between start and target |
| `Vectors.MathLerpIsMix` | components/ThreeScene.tsx:35 | `MathUtils.lerp`'s `(1 - t) x + t y` equals the `x + (y - x) t` form of the vector lerps |
| `Vectors.UniformLerp` | components/ThreeScene.tsx:167 | lerping a uniform scale toward a uniform scale gives a uniform scale |
| `Artifact.Selected` | components/ThreeScene.tsx:132-145 | the selector picks a project exactly when the id is one of `'airable'`, `'i12'`, `'qs'`, and that project's key is the id; null and every other id select no project |
| `Artifact.SelectedKey` | constants.ts:5-23 | each project's id string selects that project |
| `Artifact.ConfigFor` | components/ThreeScene.tsx:131-146 | no project gives `DEFAULT_CONFIG`; only `qs` changes `emissiveIntensity`; every project changes colour and ring speed; scales lie in [1, 1.3], ring speeds are positive, distortions non-negative, colours valid `#rrggbb` |
| `Artifact.ColorOf` | components/ThreeScene.tsx:34 | a `#rrggbb` colour decodes to three channels, each in [0, 1] |
| `Artifact.KnownColors` | components/ThreeScene.tsx:18 | the default colour decodes to white and `qs`'s `#ff00aa` to (1, 0, 170/255) |
| `CyberCore.CyberCore.constructor` | components/ThreeScene.tsx:125-127 | the configuration ref starts as `DEFAULT_CONFIG` |
| `CyberCore.CyberCore.Frame` | components/ThreeScene.tsx:129-168 | the configuration is replaced by the lookup for the active id; rotation y and z are overwritten from the current scroll only (x kept); the scale becomes the old scale lerped by 0.1 toward the uniform target `config.scale * expansion` |
| `CyberCore.Turntable` | components/ThreeScene.tsx:153 | the turntable angle stays in [0, 2 PI] over the scroll range, and is exactly PI at scroll 0.5 and 2 PI at 1 |
| `CyberCore.Tilt` | components/ThreeScene.tsx:154 | `sin(scroll * PI) * 0.5`; its bounds are `CyberCore.TiltRange` |
| `CyberCore.TiltRange` | components/ThreeScene.tsx:154 | the tilt stays in [-0.5, 0.5], is non-negative over the scroll range, is 0 at scroll 0, and at scroll 1 is `sin(PI) * 0.5`, the tiny non-negative residue of `Math.sin(Math.PI)` |
| `CyberCore.Breath` | components/ThreeScene.tsx:157 | `1 + sin(elapsed) * 0.05`; its bounds are `CyberCore.BreathRange` |
| `CyberCore.BreathRange` | components/ThreeScene.tsx:157 | the breathing factor stays in [0.95, 1.05] |
| `CyberCore.Explosion` | components/ThreeScene.tsx:160-163 | the windowed expansion term; its window and bounds are `CyberCore.ExplosionWindow` |
| `CyberCore.Expansion` | components/ThreeScene.tsx:157-163 | breathing plus explosion; bounded in [0.95, 1.55] by `CyberCore.TargetScaleRange` |
| `CyberCore.ExplosionWindow` | components/ThreeScene.tsx:159-163 | the explosion term is exactly 0 unless 0.3 < scroll < 0.7 (so also at 0.3 and 0.7), and lies in [0, 0.5] |
| `CyberCore.TargetScale` | components/ThreeScene.tsx:166 | `target.scale * expansion`; its bounds are `CyberCore.TargetScaleRange` and `CyberCore.SelectedTargetScaleRange` |
| `CyberCore.TargetScaleRange` | components/ThreeScene.tsx:157-166 | the target scale is the configured scale times a factor in [0.95, 1.55]; outside the window it is the configured scale times the breathing factor |
| `CyberCore.SelectedTargetScaleRange` | components/ThreeScene.tsx:131-166 | for every selection the target scale lies in [0.95, 2.015] |
| `CyberCore.ScaleConvergence` | components/ThreeScene.tsx:167 | after `n` frames toward a fixed target the scale's gap is `0.9^n` of the first, whatever the frame durations, and never grows |
| `CyberCore.ScaleStaysUniform` | components/ThreeScene.tsx:167 | a uniform group scale stays uniform under the frame step |
| `Materials.CoreGeometry.constructor` | components/ThreeScene.tsx:42-57 | the material starts white (`color="#ffffff"`) with the given distortion, and the mesh unrotated |
| `Materials.CoreGeometry.Frame` | components/ThreeScene.tsx:31-40 | the colour lerps toward the configured colour and the distortion toward the configured distortion by `2 * delta`; rotation x and y grow by `0.2 * delta` and `0.3 * delta`; z is unchanged |
| `Materials.DataRibbon.constructor` | components/ThreeScene.tsx:83-90 | a ribbon keeps its speed and axis, starts unrotated, and its emissive colour starts white (`emissive="#ffffff"`) with the given intensity |
| `Materials.DataRibbon.Frame` | components/ThreeScene.tsx:67-80 | only the ribbon's own axis turns, by `delta * speed * ringSpeed` with the raw ring speed; emissive colour and intensity lerp toward the configuration by `delta` |
| `Materials.Turn` | components/ThreeScene.tsx:71-73 | one axis of a rotation advanced; `Materials.TurnOnlyAxis` shows the other two are kept |
| `Materials.Accumulate` | components/ThreeScene.tsx:37-38 | a rotation advanced by `delta * rate` per frame; its closed form is `Materials.AccumulateTotal` |
| `Materials.AccumulateTotal` | components/ThreeScene.tsx:37-38 | a rotation accumulated over frames is the start plus the rate times the total frame time |
| `Materials.AccumulateSplitFree` | components/ThreeScene.tsx:71-73 | two runs of frames with the same total time give the same angle, so the rotation does not depend on the frame rate |
| `Materials.TurnOnlyAxis` | components/ThreeScene.tsx:71-73 | a ribbon's turn leaves the other two axes unchanged |
| `Materials.RibbonDirection` | components/ThreeScene.tsx:70 | for a positive frame time, a ribbon turns in the direction of its own speed's sign under every selection |
| `Materials.ColorNoSnap` | components/ThreeScene.tsx:34 | a colour blend by a fraction below 1 never reaches a target colour it did not start at |
| `Materials.QsToggleNeverSnaps` | components/ThreeScene.tsx:34 | toggling from no project to `qs` and back over two frames, the first shorter than half a second and the second at most half a second, the core colour starting at white never equals the `qs` colour |
| `Materials.ColorRun` | components/ThreeScene.tsx:34 | the colour after a run of frames toward one target; its property is `Materials.ColorRunNoSnap` |
| `Materials.ColorRunNoSnap` | components/ThreeScene.tsx:34 | however many frames run, each shorter than half a second, the core colour never reaches a target colour it did not start at |
| `Materials.DistortionApproaches` | components/ThreeScene.tsx:35 | with `delta <= 0.5` the distortion moves toward the configured value without passing it |
| `Camera.Parallax` | components/ThreeScene.tsx:223-224 | the parallax leaves z unchanged and moves x and y by at most 0.2 for a pointer in [-1, 1]^2 |
| `Camera.CameraTarget` | components/ThreeScene.tsx:220-224 | `interpolate` plus the parallax; its values are `Camera.CameraPoses` and `Camera.Parallax` |
| `Camera.KeyframesAfter` | components/ThreeScene.tsx:220-224 | after a frame the table keeps its length and times (and so stays well formed) |
| `Camera.CameraRig.constructor` | components/ThreeScene.tsx:242 | the camera starts at (0, 0, 6), and the rig with the five-waypoint table of lines 210-216 |
| `Camera.CameraRig.Step` | components/ThreeScene.tsx:218-231 | the camera moves by `2 * delta` toward the interpolated pose plus parallax; the look-at target is reset to the origin; an out-of-range scroll also writes the shifted vector into the table's last waypoint |
| `Camera.CameraPoses` | components/ThreeScene.tsx:210-216 | the camera table is well formed; it gives (-3, 0, 6) at 0, (-4, 2, 5) at 0.25, (0, 0, 9) at 0.5, (4, -2, 5) at 0.75, (0, 0, 3) at 1, and the contact pose (0, 0, 3) for any scroll below 0 or above 1 |
| `Camera.StepApproaches` | components/ThreeScene.tsx:227 | with `delta <= 0.5` each camera coordinate moves toward the target without passing it, and in each of x, y and z the gap shrinks to `1 - 2 delta` of itself |
| `Camera.StepNoTeleport` | components/ThreeScene.tsx:227 | with `delta < 0.5` the camera never reaches a target it did not start at, however far the target jumped |
| `Camera.CoordinateUnclamped` | components/ThreeScene.tsx:227 | in one coordinate that differs from the target, a step by `2 * delta` with `delta > 0.5` passes the target, and with `delta > 1` ends further from it |
| `Camera.StepUnclamped` | components/ThreeScene.tsx:227 | in every coordinate where the camera differs from the target, `delta > 0.5` carries it past the target and `delta > 1` leaves it further away |
| `Camera.InRangeKeepsTable` | components/ThreeScene.tsx:196-200 | a scroll value inside the table's range leaves the table unchanged |
| `Camera.StaleFrames` | components/ThreeScene.tsx:203 | repeated frames keep the table well formed with the same length and last time |
| `Camera.StaleFramesDrift` | components/ThreeScene.tsx:220-224 | after `n` out-of-range frames the last waypoint has moved by `n` parallax offsets in x and y, and the other waypoints are untouched |
| `TextReveal.Split` | components/TextReveal.tsx:11 | splitting on spaces always yields at least one word, and no word contains a space |
| `TextReveal.Join` | components/TextReveal.tsx:31 | `join(" ")`; `TextReveal.JoinSplit` shows it undoes the split and `TextReveal.JoinLength` gives its length |
| `TextReveal.JoinSplit` | components/TextReveal.tsx:11 | joining the split words with single spaces gives the text back |
| `TextReveal.SplitCounts` | components/TextReveal.tsx:11 | there is one word per space plus one; the words hold exactly the text's non-space characters, in order |
| `TextReveal.JoinLength` | components/TextReveal.tsx:31 | a join's length is the sum of the word lengths plus one per gap |
| `TextReveal.Base` | components/TextReveal.tsx:31 | `words.slice(0, i).join(" ").length`; its closed form is `TextReveal.BaseFormula` and its step `TextReveal.BaseStep` |
| `TextReveal.BaseFormula` | components/TextReveal.tsx:31 | the first word's base index is 0; word `i >= 1` has base (sum of the lengths of words `0..i-1`) + `i - 1` |
| `TextReveal.BaseStep` | components/TextReveal.tsx:31 | the next word's base is past all of this word's characters, with one extra after every word but the first |
| `TextReveal.Render` | components/TextReveal.tsx:10-29 | the heading's aria-label is the unmodified text, and it has one word group per space plus one; an omitted `delay` is `Render(children, 0.0)` (line 10) |
| `TextReveal.CharDelay` | components/TextReveal.tsx:20 | `delay + i * 0.03`; `TextReveal.CharDelayIncreasing` shows it strictly increases with the index |
| `TextReveal.CharDelayIncreasing` | components/TextReveal.tsx:20 | a larger stagger index gives a strictly later delay |
| `TextReveal.WordSpans` | components/TextReveal.tsx:35-38 | one span per character of word `i`, indexed from its base; its properties are `TextReveal.WordSpansStaggered` |
| `TextReveal.RenderWords` | components/TextReveal.tsx:29-38 | the spans of every word; their order and content are `TextReveal.RenderOrder` |
| `TextReveal.WordSpansStaggered` | components/TextReveal.tsx:35-38 | a word's spans spell the word, with strictly increasing indices from the word's base, all below the next word's base |
| `TextReveal.RenderOrder` | components/TextReveal.tsx:29-38 | in reading order, indices and delays strictly increase (so no two characters share an index); the spans spell the text without its spaces, one span per non-space character |
| `TextReveal.StaggerIndex` | components/TextReveal.tsx:31-38 | character `j` of word `i` gets index `j` in the first word, and (sum of earlier word lengths) + `i - 1` + `j` after it |
| `TextReveal.DoubleSpaceExample` | components/TextReveal.tsx:11 | "a  b" splits into "a", "" and "b"; the empty word gets no span but still adds a separator, so `b` gets index 2 |
| `TextReveal.SkippedIndexExample` | components/TextReveal.tsx:31 | in "ab cd ef" word 1 starts at index 2 and word 2 at index 5: the separator after the first word is not counted, later ones are |
| `SkillBar.NatToDecimal` | components/SkillBar.tsx:11 | a decimal has at least one digit, all digits, and starts with `0` only when it is `"0"` itself; with `SkillBar.ParseIntToDecimal` this pins the shortest decimal |
| `SkillBar.IntToDecimal` | components/SkillBar.tsx:11 | a level printed as JavaScript prints an integer; `SkillBar.ParseIntToDecimal` reads it back |
| `SkillBar.ParseIntToDecimal` | components/SkillBar.tsx:11 | reading back a printed integer gives the integer |
| `SkillBar.Label` | components/SkillBar.tsx:11 | every label is at least two characters long and ends in `%` |
| `SkillBar.LabelRoundTrip` | components/SkillBar.tsx:11 | every label can be read back to its level, so distinct levels have distinct labels |
| `SkillBar.LabelAndWidth` | components/SkillBar.tsx:11-17 | below 100 the label is `"0"` followed by the width string, and from 100 up the label is the width string |
| `SkillBar.Width` | components/SkillBar.tsx:17 | the width is the raw level followed by `%` |
| `SkillBar.LabelExamples` | components/SkillBar.tsx:11-17 | 95 gives "095%", 100 gives "100%", 5 gives "05%", -5 gives "0-5%" (one zero is prepended, with no padding to three digits), and width 150 gives "150%" (no clamping) |
| `SkillBar.EntranceDelay` | components/SkillBar.tsx:23 | the entrance delay is never negative |
| `SkillBar.EntranceDelayOrder` | components/SkillBar.tsx:23 | a bar further down the list starts strictly later |

## Left out

- Rendering: the canvas, lights, materials' other properties, post-processing, stars and sparkles, and all JSX markup (components/ThreeScene.tsx:238-275, the markup of `TextReveal` and `SkillBar`). These involve no computation the page depends on.
- The `Float` wrapper (components/ThreeScene.tsx:172). Its motion lives in a library that is not shown.
- `SatelliteCluster` (components/ThreeScene.tsx:96-123). It uses `Math.random` and trigonometric placement, and only its rotation `elapsedTime * 0.1` depends on time.
- The `if (groupRef.current)` and `if (meshRef.current && materialRef.current)` / `if (matRef.current)` guards. The frame steps model a mounted component. Before mounting, a frame changes only `config.current`.
- The order in which `useFrame` callbacks run within a frame, and how the scroll value and clock are sampled. Each step takes them as parameters.
- IEEE rounding, NaN and infinities. A NaN scroll value would take the out-of-range branch; reals have no NaN.
- `CyberCore.TiltRange`: does not claim a zero tilt at scroll 1, because `Math.sin(Math.PI)` is not 0 (about 1.2e-16); the lemma states only that the tilt there is `sin(PI) * 0.5` and non-negative.
- `Math.sin` is not defined. Its laws are the hypothesis `Trig.SineLaws`, so the explosion term's peak value at scroll 0.5 (`sin(PI/2) = 1`) is not stated.
- The 2D orb choreography in App.tsx. It is driven by framer-motion's `useTransform` and `useSpring`, whose interpolation and spring integration are library code that is not shown.
- components/Magnetic.tsx and components/ProjectCard.tsx. These are DOM event handling and UI state.
- The static data in constants.ts and types.ts. Only the three project ids are used, as the `Artifact.ProjectId` enumeration.
- `Artifact.ColorOf`: does not model three.js colour management. The sRGB-to-linear conversion that `THREE.Color` may apply to hex input is library code that is not shown. Each channel is its byte divided by 255.
- `SkillBar.Label`: models integer levels only. A fractional level would print with a decimal point, and a level of magnitude 10^21 or more would print in exponent notation (`1e+21`); JavaScript's number formatting beyond plain integers is not modelled.
- `SkillBar.Width`: the same restriction as `SkillBar.Label`, integer levels below 10^21 in magnitude.
- `Camera.CameraRig.Step`: models the aliasing between `interpolate`'s fallback result and the table by writing the shifted vector back into the table. It does not model object identity.
- `CyberCore.CyberCore.constructor` takes the group's initial rotation and scale as parameters, because the group element sets neither and its defaults are library code that is not shown.
- `Materials.CoreGeometry.constructor` takes the initial distortion, and `Materials.DataRibbon.constructor` the initial emissive intensity, as parameters, because the markup does not set them and the material library's defaults are not shown.
- `Camera.CameraRig.constructor` takes the camera's initial aim as a parameter, because the camera element sets only the position and its default orientation is library code that is not shown.
- `TextReveal.Base`: each `char` stands for one UTF-16 code unit. JavaScript's `split("")` and `.length` count code units, so a character outside the Basic Multilingual Plane gives two spans and adds 2, not 1, to every later index. Text outside the BMP is not modelled.
