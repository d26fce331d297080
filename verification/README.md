# Virtual keyboard: hit-testing and press state machine

This project models the input core of an interactive keyboard written in
JavaScript (`keyboard.js`). There are two pieces.

- **Hit-testing (`ColorMap`).** The keyboard image comes with a 689 x 200 RGBA
  colour map. Its red channel holds the index of the key drawn at each pixel.
  Red 0 is ambiguous: it is key 0 unless the pixel is transparent (alpha 0),
  which means "no key". `ColorMap.IndexAt` resolves a logical pixel coordinate
  to a key index or `NoKey` (-1).
- **Press state machine and grid tick (`Keyboard`, `Pitch`, `Session`).** The
  keyboard state holds four things:
  - the held key (`NoKey` when none);
  - whether the "brighter mountains" layer is shown;
  - the background grid's scroll position;
  - the timestamp of the previous tick of the grid loop.

  Four pointer handlers (move, out, down, up) drive the state, through the
  helpers `PressKey` and `ClearPressedKey`. One idle-time tick advances the
  grid by elapsed time times a rate that grows with the held key's pitch.
  `Session` runs sequences of events and proves properties across them.

Every handler and the tick returns the next state and whether it scheduled a
tick of the grid loop. So "the loop is started only on a fresh press" is a
statement about the result.

The pixel buffer is an immutable `seq<int>`. Handlers receive key indices that
`IndexAt` has already resolved. Time is an integer number of milliseconds,
passed to the tick as a parameter. Positions are `real`.

## Model

| member | source | states |
|---|---|---|
| `ColorMap.IndexAt` | keyboard.js:38-59 | Out-of-bounds coordinates give NoKey. So does an offset at or past the end of the buffer. A non-zero red byte is returned unchanged, whatever the alpha. A zero red byte gives NoKey exactly when the alpha byte is 0, and key 0 otherwise. On byte data the result lies in [-1, 255] and is NoKey exactly when the coordinate is outside, past the buffer, or transparent. |
| `ColorMap.FullBufferCoversImage` | keyboard.js:1-2 | For a fully decoded 689 x 200 x 4 buffer, every in-bounds pixel's four bytes lie inside the buffer. |
| `ColorMap.OffsetsDisjoint` | keyboard.js:42 | Distinct in-bounds coordinates address disjoint four-byte groups, so the row-major layout gives each pixel its own sample. |
| `ColorMap.PaintThenIndex` | keyboard.js:46-57 | Round trip: writing the encoding of any result h in [-1, 255] at a pixel makes the hit-test there return h. Key 0 and "no key" are told apart by alpha. |
| `ColorMap.PaintElsewhere` | keyboard.js:42-57 | Overwriting one pixel leaves the hit-test of every other coordinate unchanged. |
| `ColorMap.FullBufferNoKey` | keyboard.js:42-54 | On a full-size byte buffer the length guard never fires. An in-bounds coordinate is NoKey exactly when its red and alpha bytes are both 0. |
| `Pitch.Rate` | keyboard.js:171 | The rate factor `0.05 * ratio^k`, in exact arithmetic with the semitone ratio as a parameter. Key 0 scrolls at the base rate of 0.05 pixels per millisecond. With a positive ratio, every key's rate is positive. |
| `Pitch.RateIncreasing` | keyboard.js:171 | With a ratio of at least 1, a higher key never scrolls slower. With a ratio above 1 it scrolls strictly faster. |
| `Pitch.RateShift` | keyboard.js:171 | Moving up n semitones multiplies the rate by ratio^n. |
| `Pitch.OctaveDoublesRate` | keyboard.js:3 | When ratio^12 = 2 exactly (the exact twelfth root of two), the key an octave higher scrolls twice as fast. |
| `Keyboard.ClearPressedKey` | keyboard.js:135-143 | No key is held afterwards. Brightness, grid position and previous frame are unchanged. |
| `Keyboard.PressKey` | keyboard.js:145-163 | The held key becomes i, whatever was held before. For i = NoKey this releases a held key. The tick is scheduled exactly when i is a real key and nothing was held. The cue ends up on exactly when it was already on or the press was fresh, so a press on NoKey leaves the cue as it was. Grid state is unchanged. |
| `Keyboard.MouseMove` | keyboard.js:183-194 | Moving onto a real key while a key is held re-presses that key. Moving onto NoKey, or any move while nothing is held, leaves the held key as it was. A move never schedules a tick and never changes the cue or the grid. |
| `Keyboard.MouseOut` | keyboard.js:195-197 | Leaving the keyboard changes nothing in the modelled state: not the held key, the cue, the grid position or the previous frame. It schedules nothing. |
| `Keyboard.MouseDown` | keyboard.js:198-200 | The held key becomes i. A tick is scheduled exactly on a fresh press of a real key. The cue ends up on exactly when it was already on or the press was fresh. The grid position and previous frame are unchanged. |
| `Keyboard.MouseUp` | keyboard.js:201-204 | Whatever the prior state, nothing is held afterwards and the cue is off. No tick is scheduled and the grid is unchanged. |
| `Keyboard.Tick` | keyboard.js:166-178 | With a key held, the previous frame becomes `now` and another tick is scheduled. If there was a previous frame, the grid moves by (now - previous frame) times the held key's rate; otherwise it does not move. With nothing held, the grid does not move, the previous frame is forgotten and the loop ends. The held key and the cue are unchanged. |
| `Keyboard.TickMonotone` | keyboard.js:169-172 | With a positive ratio and `now` no earlier than the previous frame, a tick never moves the grid backwards. |
| `Session.Apply` | keyboard.js:182-205 | Every handler and the tick keep the held key within [-1, 25). They also keep the invariant that a held key has the cue on. |
| `Session.Run` | keyboard.js:182-205 | Any sequence of events keeps the held key in range and preserves the "held key implies cue on" invariant. |
| `Session.ReleaseClears` | keyboard.js:201-204 | After any history, a final button release leaves nothing held and the cue off. |
| `Session.HeldUntilReleased` | keyboard.js:183-194 | A held key stays held through any events except a release and a press on a dead zone. Dragging onto a dead zone or out of the keyboard does not release it. |
| `Session.NoPressNoMotion` | keyboard.js:166-194 | Starting with nothing held and never pressing a real key, nothing ever becomes held, no tick is scheduled and the grid never moves. |
| `Session.GlideNoRetrigger` | keyboard.js:145-163 | While a key is held, any moves and presses onto real keys schedule no new loop. The cue stays on, the grid does not move, and the last key moved or pressed onto is held. |
| `Session.TicksTelescope` | keyboard.js:169-174 | While a key is held, a run of ticks moves the grid by (last tick time - previous frame) times the key's rate, however the ticks fall in between. |
| `Session.RunMonotone` | keyboard.js:166-178 | With a positive ratio and tick times that never decrease, the grid position never decreases over any event sequence. |
| `Session.PressThenGlide` | keyboard.js:183-204 | Pressing key 5 and dragging to key 7 holds 7 with the cue on and only one loop started. A release then returns to the initial state. |
| `Session.DeadZonePressKeepsCue` | keyboard.js:145-150 | A press on a dead zone while key 3 is held releases it but leaves the cue on. The next tick ends the loop. |

## Left out

- Loading the colour map (`load_color_map`) is browser I/O: canvas, image loading and a Promise. The decoded pixel buffer is a parameter.
- Rescaling pointer offsets to logical pixels (`getBoundingRect`, `registerGen`) is left out. It uses floating-point division over DOM geometry and `parseInt`, so the model takes integer coordinates. A coordinate that came out as NaN would make `indexAt` return `undefined`; integers cannot express that.
- Hover classes are left out (`clearHover`, the `hover` class in `mousemove` and `pressKey`). So are key transforms and transition durations. These are DOM/CSS only. As a result `MouseOut` is the identity on the modelled state.
- The opacity of the brighter mountains layer is a boolean. Its initial value depends on the page's stylesheet, which is not part of this model; the initial state takes it as off.
- `requestIdleCallback` and `Date.now` are host scheduling and clock. The tick takes `now` as a parameter, and a scheduled tick appears only as the `scheduleTick` flag. Overlapping loops after a quick release and re-press are not modelled. A `Session` event sequence may contain an idle tick at any point, even when no tick is pending, so the `Session` lemmas cover more traces than keyboard.js can produce; each holds for every trace.
- The semitone ratio `Math.pow(2, 1/12)` is a double that approximates the irrational 2^(1/12), so it is a `real` parameter. The rate is `0.05 * ratio^k`, in exact arithmetic. Floating-point rounding of the grid position is not modelled.
- Pitch.OctaveDoublesRate: octave doubling is proved for the exact twelfth root of two. keyboard.js's double `SEMITONE_RATIO` has a twelfth power of about 2.000000000000001, not 2, so there the doubling holds only approximately.
- Handler indices are limited to [-1, 25), the length of `KEY_IDS`. For a colour-map value of 25 or more, keyboard.js throws a TypeError partway through `pressKey` or `mousemove` (`getKeyElements` returns `undefined`). The model does not represent that failure.
- `KEY_IDS` element-id strings: only their count, 25, is used.
- `ColorMap.IndexAt`: the red byte past the end of the buffer reads as no key, as in keyboard.js. An alpha byte past the end reads as non-zero, because keyboard.js compares `undefined` with 0. That case is modelled as key 0 and cannot occur with a real 689 x 200 RGBA buffer.
- Release is registered on the keyboard element, not on the whole document. Following the code, the model has no release event from outside the keyboard. A button released outside the keyboard therefore leaves the key held until the next button release over the keyboard or a press on a dead zone; `Session.HeldUntilReleased` states this.
