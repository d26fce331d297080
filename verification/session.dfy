/**
 Sequences of pointer events and grid ticks applied to the keyboard, and the
 properties that hold across them.
 */
module Session {
  import opened ColorMap
  import opened Pitch
  import opened Keyboard

  /** A pointer event carrying its resolved key index, or an idle-time grid tick. */
  datatype Event = Move(key: int) | Out | Down(key: int) | Up | Idle(now: int)

  predicate EventOk(e: Event) {
    (e.Move? || e.Down?) ==> KeyIndex(e.key)
  }

  predicate EventsOk(evs: seq<Event>) {
    forall j :: 0 <= j < |evs| ==> EventOk(evs[j])
  }

  /** Dispatches one event to its handler. */
  function Apply(s: State, e: Event, ratio: real): (r: Step)
    requires WellFormed(s) && EventOk(e)
    ensures WellFormed(r.next)
    ensures Valid(s) ==> Valid(r.next)
  {
    match e
    case Move(i) => MouseMove(s, i)
    case Out => MouseOut(s)
    case Down(i) => MouseDown(s, i)
    case Up => MouseUp(s)
    case Idle(now) => Tick(s, now, ratio)
  }

  /** The state after applying the events in order. */
  function Run(s: State, evs: seq<Event>, ratio: real): (r: State)
    requires WellFormed(s) && EventsOk(evs)
    ensures WellFormed(r)
    ensures Valid(s) ==> Valid(r)
    decreases |evs|
  {
    if evs == [] then s else Run(Apply(s, evs[0], ratio).next, evs[1..], ratio)
  }

  /** How many grid ticks the events schedule, counting both fresh loops and continuations. */
  function Scheduled(s: State, evs: seq<Event>, ratio: real): (n: nat)
    requires WellFormed(s) && EventsOk(evs)
    ensures n <= |evs|
    decreases |evs|
  {
    if evs == [] then 0
    else
      var step := Apply(s, evs[0], ratio);
      (if step.scheduleTick then 1 else 0) + Scheduled(step.next, evs[1..], ratio)
  }

  /** Running a + b is running a and then b. */
  lemma {:induction false} RunAppend(s: State, a: seq<Event>, b: seq<Event>, ratio: real)
    requires WellFormed(s) && EventsOk(a) && EventsOk(b)
    ensures EventsOk(a + b)
    ensures Run(s, a + b, ratio) == Run(Run(s, a, ratio), b, ratio)
    decreases |a|
  {
    assert EventsOk(a + b) by {
      forall j | 0 <= j < |a + b|
        ensures EventOk((a + b)[j])
      {
        if j < |a| {
          assert EventOk(a[j]);
        } else {
          assert EventOk(b[j - |a|]);
        }
      }
    }
    if a == [] {
      assert a + b == b;
    } else {
      assert (a + b)[0] == a[0];
      assert (a + b)[1..] == a[1..] + b;
      var next := Apply(s, a[0], ratio).next;
      RunAppend(next, a[1..], b, ratio);
      calc {
        Run(s, a + b, ratio);
        Run(next, (a + b)[1..], ratio);
        Run(next, a[1..] + b, ratio);
        Run(Run(next, a[1..], ratio), b, ratio);
        Run(Run(s, a, ratio), b, ratio);
      }
    }
  }

  /** Whatever happened before, releasing the button leaves nothing held and the cue off. */
  lemma ReleaseClears(s: State, evs: seq<Event>, ratio: real)
    requires WellFormed(s) && EventsOk(evs)
    ensures EventsOk(evs + [Up])
    ensures Run(s, evs + [Up], ratio).pressed == NoKey
    ensures !Run(s, evs + [Up], ratio).bright
  {
    assert EventsOk([Up]);
    RunAppend(s, evs, [Up], ratio);
  }

  /** The event releases nothing: it is neither a button release nor a press on a dead zone. */
  predicate KeepsHold(e: Event) {
    !e.Up? && e != Down(NoKey)
  }

  /**
   A held key stays held until the button is released or pressed on a dead
   zone; in particular dragging onto a dead zone (a move to NoKey) or off the
   keyboard does not release it.
   */
  lemma {:induction false} HeldUntilReleased(s: State, evs: seq<Event>, ratio: real)
    requires WellFormed(s) && EventsOk(evs)
    requires s.pressed != NoKey
    requires forall j :: 0 <= j < |evs| ==> KeepsHold(evs[j])
    ensures Run(s, evs, ratio).pressed != NoKey
    decreases |evs|
  {
    if evs != [] {
      assert KeepsHold(evs[0]);
      HeldUntilReleased(Apply(s, evs[0], ratio).next, evs[1..], ratio);
    }
  }

  /** The event cannot press a key. */
  predicate NoPress(e: Event) {
    !e.Down? || e.key == NoKey
  }

  /**
   Without a button press on a key, hovering and ticking never press a key,
   never schedule the grid loop, and never move the grid.
   */
  lemma {:induction false} NoPressNoMotion(s: State, evs: seq<Event>, ratio: real)
    requires WellFormed(s) && EventsOk(evs)
    requires s.pressed == NoKey
    requires forall j :: 0 <= j < |evs| ==> NoPress(evs[j])
    ensures Run(s, evs, ratio).pressed == NoKey
    ensures Run(s, evs, ratio).gridPosition == s.gridPosition
    ensures Scheduled(s, evs, ratio) == 0
    decreases |evs|
  {
    if evs != [] {
      assert NoPress(evs[0]);
      NoPressNoMotion(Apply(s, evs[0], ratio).next, evs[1..], ratio);
    }
  }

  /** The event is a move or a press onto a real key. */
  predicate KeyEvent(e: Event) {
    (e.Move? || e.Down?) && e.key != NoKey
  }

  /**
   Gliding from key to key while one is held re-presses without re-triggering
   the fresh-press effects: no new loop, the cue stays on, and the last key
   moved or pressed onto is the one held.
   */
  lemma {:induction false} GlideNoRetrigger(s: State, evs: seq<Event>, ratio: real)
    requires Valid(s) && EventsOk(evs)
    requires s.pressed != NoKey
    requires forall j :: 0 <= j < |evs| ==> KeyEvent(evs[j])
    ensures Scheduled(s, evs, ratio) == 0
    ensures Run(s, evs, ratio).bright
    ensures evs != [] ==> KeyEvent(evs[|evs| - 1]) && Run(s, evs, ratio).pressed == evs[|evs| - 1].key
    ensures Run(s, evs, ratio).gridPosition == s.gridPosition
    decreases |evs|
  {
    if evs != [] {
      assert KeyEvent(evs[0]);
      var next := Apply(s, evs[0], ratio).next;
      assert next.pressed == evs[0].key;
      GlideNoRetrigger(next, evs[1..], ratio);
      if |evs| > 1 {
        assert evs[1..][|evs[1..]| - 1] == evs[|evs| - 1];
      }
    }
  }

  predicate AllIdle(evs: seq<Event>) {
    forall j :: 0 <= j < |evs| ==> evs[j].Idle?
  }

  /**
   While a key is held, a run of ticks moves the grid by the time elapsed
   between the previous frame and the last tick times the key's rate, however
   the ticks fall in between.
   */
  lemma {:induction false} TicksTelescope(s: State, evs: seq<Event>, ratio: real)
    requires WellFormed(s) && EventsOk(evs)
    requires s.pressed != NoKey && s.prevFrame.FrameAt?
    requires evs != [] && AllIdle(evs)
    ensures Run(s, evs, ratio).prevFrame == FrameAt(evs[|evs| - 1].now)
    ensures Run(s, evs, ratio).gridPosition
            == s.gridPosition + (evs[|evs| - 1].now - s.prevFrame.time) as real * Rate(ratio, s.pressed)
    decreases |evs|
  {
    var k := s.pressed;
    var t0 := s.prevFrame.time;
    var t1 := evs[0].now;
    var next := Apply(s, evs[0], ratio).next;
    assert next.pressed == k && next.prevFrame == FrameAt(t1);
    assert next.gridPosition == s.gridPosition + (t1 - t0) as real * Rate(ratio, k);
    if |evs| > 1 {
      var rest := evs[1..];
      assert rest[|rest| - 1] == evs[|evs| - 1];
      TicksTelescope(next, rest, ratio);
      var tn := evs[|evs| - 1].now;
      assert (t1 - t0) as real * Rate(ratio, k) + (tn - t1) as real * Rate(ratio, k)
             == (tn - t0) as real * Rate(ratio, k);
    }
  }

  /**
   The idle timestamps in evs never decrease and none is earlier than t.
   */
  predicate ClockFrom(t: int, evs: seq<Event>)
    decreases |evs|
  {
    evs == [] ||
    (if evs[0].Idle? then t <= evs[0].now && ClockFrom(evs[0].now, evs[1..])
     else ClockFrom(t, evs[1..]))
  }

  /**
   With a positive semitone ratio and a clock that never runs backwards, the
   grid's position never decreases over any sequence of events.
   */
  lemma {:induction false} RunMonotone(s: State, evs: seq<Event>, ratio: real, t: int)
    requires WellFormed(s) && EventsOk(evs) && ratio > 0.0
    requires s.prevFrame.FrameAt? ==> s.prevFrame.time <= t
    requires ClockFrom(t, evs)
    ensures Run(s, evs, ratio).gridPosition >= s.gridPosition
    decreases |evs|
  {
    if evs != [] {
      var e := evs[0];
      var next := Apply(s, e, ratio).next;
      if e.Idle? {
        TickMonotone(s, e.now, ratio);
        RunMonotone(next, evs[1..], ratio, e.now);
      } else {
        RunMonotone(next, evs[1..], ratio, t);
      }
    }
  }

  /**
   Pressing key 5 and dragging onto key 7 re-pitches without a release or a
   second loop; releasing then clears the press and the cue.
   */
  lemma PressThenGlide(ratio: real)
    ensures EventsOk([Down(5), Move(7), Up])
    ensures Run(Initial, [Down(5), Move(7)], ratio).pressed == 7
    ensures Run(Initial, [Down(5), Move(7)], ratio).bright
    ensures Scheduled(Initial, [Down(5), Move(7)], ratio) == 1
    ensures Run(Initial, [Down(5), Move(7), Up], ratio) == State(NoKey, false, 0.0, NoFrame)
  {
  }

  /**
   A press on a dead zone while a key is held releases the key but leaves the
   brightness cue on; the next tick then ends the grid loop.
   */
  lemma DeadZonePressKeepsCue(ratio: real, t: int)
    ensures EventsOk([Down(3), Down(NoKey), Idle(t)])
    ensures Run(Initial, [Down(3), Down(NoKey)], ratio).pressed == NoKey
    ensures Run(Initial, [Down(3), Down(NoKey)], ratio).bright
    ensures Run(Initial, [Down(3), Down(NoKey), Idle(t)], ratio).prevFrame == NoFrame
    ensures Scheduled(Initial, [Down(3), Down(NoKey), Idle(t)], ratio) == 1
  {
    var held := State(3, true, 0.0, NoFrame);
    var released := State(NoKey, true, 0.0, NoFrame);
    assert Apply(Initial, Down(3), ratio) == Step(held, true);
    assert Apply(held, Down(NoKey), ratio) == Step(released, false);
    assert Apply(released, Idle(t), ratio) == Step(released, false);
    assert [Down(3), Down(NoKey)][1..] == [Down(NoKey)];
    assert [Down(3), Down(NoKey), Idle(t)][1..] == [Down(NoKey), Idle(t)];
    assert [Down(NoKey), Idle(t)][1..] == [Idle(t)];
    assert Run(released, [Idle(t)], ratio) == released;
    assert Run(held, [Down(NoKey), Idle(t)], ratio) == released;
    assert Scheduled(released, [Idle(t)], ratio) == 0;
    assert Scheduled(held, [Down(NoKey), Idle(t)], ratio) == 0;
  }
}
