/**
 The keyboard's press state machine and one tick of the grid-scrolling loop.

 Handlers receive key indices already resolved by ColorMap.IndexAt. Each
 handler and the tick return the next state together with whether they
 scheduled a (further) tick of the grid loop.
 */
module Keyboard {
  import opened ColorMap
  import opened Pitch

  /** Number of playable keys on the instrument. */
  const KeyCount: int := 25

  /** Timestamp of the previous grid tick, in milliseconds, if any. */
  datatype Frame = NoFrame | FrameAt(time: int)

  /**
   The keyboard's mutable state: the held key (NoKey when none), whether the
   brighter mountains layer is shown, the grid's scroll position in pixels,
   and the previous tick's timestamp.
   */
  datatype State = State(pressed: int, bright: bool, gridPosition: real, prevFrame: Frame)

  /** A transition: the next state, and whether a grid tick was scheduled. */
  datatype Step = Step(next: State, scheduleTick: bool)

  /** The state a freshly constructed keyboard starts in (brightness taken as off). */
  const Initial: State := State(NoKey, false, 0.0, NoFrame)

  /** An index a handler may receive: NoKey or one of the instrument's keys. */
  predicate KeyIndex(i: int) {
    NoKey <= i < KeyCount
  }

  predicate WellFormed(s: State) {
    KeyIndex(s.pressed)
  }

  /** A held key always has the brightness cue on. */
  predicate Valid(s: State) {
    WellFormed(s) && (s.pressed != NoKey ==> s.bright)
  }

  /** Releases the held key; nothing else changes. */
  function ClearPressedKey(s: State): (r: State)
    ensures r.pressed == NoKey
    ensures r.bright == s.bright && r.gridPosition == s.gridPosition && r.prevFrame == s.prevFrame
  {
    s.(pressed := NoKey)
  }

  /**
   Presses key i, replacing any held key; NoKey only releases. The brightness
   cue is switched on and the grid loop started only when nothing was held.
   */
  function PressKey(s: State, i: int): (r: Step)
    requires KeyIndex(i)
    ensures r.next.pressed == i
    ensures r.scheduleTick <==> i != NoKey && s.pressed == NoKey
    ensures r.next.bright <==> s.bright || r.scheduleTick
    ensures i == NoKey ==> r.next.bright == s.bright  // corollary of the two above
    ensures r.next.gridPosition == s.gridPosition && r.next.prevFrame == s.prevFrame
  {
    var alreadyPressed := s.pressed != NoKey;
    var cleared := ClearPressedKey(s);
    if i == NoKey then
      Step(cleared, false)
    else if !alreadyPressed then
      Step(cleared.(pressed := i, bright := true), true)
    else
      Step(cleared.(pressed := i), false)
  }

  /**
   Pointer moved onto i. Over a real key while a key is held, it re-presses
   that key; over a dead zone, or while nothing is held, nothing changes.
   */
  function MouseMove(s: State, i: int): (r: Step)
    requires KeyIndex(i)
    ensures !r.scheduleTick
    ensures r.next.pressed == (if i >= 0 && s.pressed >= 0 then i else s.pressed)
    ensures r.next.bright == s.bright
    ensures r.next.gridPosition == s.gridPosition && r.next.prevFrame == s.prevFrame
  {
    if i >= 0 && s.pressed >= 0 then PressKey(s, i) else Step(s, false)
  }

  /** Pointer left the keyboard: only hover feedback changes, which is not modelled. */
  function MouseOut(s: State): (r: Step)
    ensures r.next.pressed == s.pressed && r.next.bright == s.bright
    ensures r.next.gridPosition == s.gridPosition && r.next.prevFrame == s.prevFrame
    ensures !r.scheduleTick
  {
    Step(s, false)
  }

  /** Button pressed over i. */
  function MouseDown(s: State, i: int): (r: Step)
    requires KeyIndex(i)
    ensures r.next.pressed == i
    ensures r.scheduleTick <==> i != NoKey && s.pressed == NoKey
    ensures r.next.bright <==> s.bright || r.scheduleTick
    ensures r.next.gridPosition == s.gridPosition && r.next.prevFrame == s.prevFrame
  {
    PressKey(s, i)
  }

  /** Button released over the keyboard: whatever was held is released and the cue is off. */
  function MouseUp(s: State): (r: Step)
    ensures r.next.pressed == NoKey && !r.next.bright
    ensures !r.scheduleTick
    ensures r.next.gridPosition == s.gridPosition && r.next.prevFrame == s.prevFrame
  {
    Step(ClearPressedKey(s).(bright := false), false)
  }

  /**
   One tick of the grid loop at time `now`. While a key is held the grid
   advances by the elapsed time since the previous tick times that key's
   rate (the first tick only records the time) and another tick is
   scheduled; with nothing held the loop ends and forgets its timestamp.
   */
  function Tick(s: State, now: int, ratio: real): (r: Step)
    requires WellFormed(s)
    ensures r.next.pressed == s.pressed && r.next.bright == s.bright
    ensures r.scheduleTick <==> s.pressed != NoKey
    ensures r.next.prevFrame == (if s.pressed != NoKey then FrameAt(now) else NoFrame)
    ensures s.pressed == NoKey || s.prevFrame == NoFrame ==> r.next.gridPosition == s.gridPosition
    ensures s.pressed != NoKey && s.prevFrame.FrameAt? ==>
              r.next.gridPosition - s.gridPosition == (now - s.prevFrame.time) as real * Rate(ratio, s.pressed)
  {
    if s.pressed != NoKey then
      var position :=
        match s.prevFrame
        case FrameAt(t) => s.gridPosition + (now - t) as real * Rate(ratio, s.pressed)
        case NoFrame => s.gridPosition;
      Step(s.(gridPosition := position, prevFrame := FrameAt(now)), true)
    else
      Step(s.(prevFrame := NoFrame), false)
  }

  /**
   With a positive semitone ratio and a clock that does not run backwards, a tick
   never moves the grid back.
   */
  lemma TickMonotone(s: State, now: int, ratio: real)
    requires WellFormed(s) && ratio > 0.0
    requires s.prevFrame.FrameAt? ==> s.prevFrame.time <= now
    ensures Tick(s, now, ratio).next.gridPosition >= s.gridPosition
  {
  }
}
