/** The touch-event state machine: one calibrated sample per poll becomes at
    most one event (Pushed, Repeat or Released), with debouncing on press and
    release and auto-repeat while the screen is held. `Step` is one poll;
    `Run` feeds it a sequence of samples; the lemmas state what any run emits. */
module TouchEvents {
  import opened UiTypes

  /** Delays in milliseconds. */
  const TouchDebouncePeriod: nat := 30
  const TouchAutoRepeatDelay: nat := 800
  const TouchAutoRepeatRate: nat := 120

  /** The five states of `touchState`. */
  datatype TouchState =
    | WaitingForTouchDown
    | ConfirmTouchDown
    | WaitingForTouchUp
    | WaitingForTouchUpAfterAutoRepeat
    | ConfirmTouchUp

  /** The byte code of each state. */
  function TouchStateCode(s: TouchState): (c: int)
    ensures 0 <= c < 5
    ensures TouchStateOfCode(c) == Some(s)
  {
    match s
    case WaitingForTouchDown => 0
    case ConfirmTouchDown => 1
    case WaitingForTouchUp => 2
    case WaitingForTouchUpAfterAutoRepeat => 3
    case ConfirmTouchUp => 4
  }

  function TouchStateOfCode(c: int): Option<TouchState>
  {
    if c == 0 then Some(WaitingForTouchDown)
    else if c == 1 then Some(ConfirmTouchDown)
    else if c == 2 then Some(WaitingForTouchUp)
    else if c == 3 then Some(WaitingForTouchUpAfterAutoRepeat)
    else if c == 4 then Some(ConfirmTouchUp)
    else None
  }

  /** Everything the machine remembers between polls: the state, the timer
      start and the coordinates latched when the press was confirmed. */
  datatype Machine = Machine(state: TouchState, startTime: nat, recordedX: int, recordedY: int)

  /** The machine as the interface starts it. */
  const InitialMachine := Machine(WaitingForTouchDown, 0, 0, 0)

  /** One poll's input: the time and the calibrated (touched, x, y) sample. */
  datatype Sample = Sample(now: nat, touched: bool, x: int, y: int)

  datatype StepResult = StepResult(next: Machine, kind: EventKind)

  /** One poll of the machine. Whenever the result is an event other than
      NoEvent, its coordinates are the new machine's latched ones. */
  function Step(m: Machine, s: Sample): (r: StepResult)
    // Pushed only from confirm-down, once the debounce period is over and the
    // screen is still touched; it latches that sample's coordinates.
    ensures r.kind == Pushed <==>
      m.state == ConfirmTouchDown && s.now >= m.startTime + TouchDebouncePeriod && s.touched
    ensures r.kind == Pushed ==>
      r.next == Machine(WaitingForTouchUp, s.now, s.x, s.y)
    // Repeat only while held: 800 ms after the press, then every 120 ms.
    ensures r.kind == Repeat <==> (s.touched &&
      ((m.state == WaitingForTouchUp && s.now >= m.startTime + TouchAutoRepeatDelay) ||
       (m.state == WaitingForTouchUpAfterAutoRepeat && s.now >= m.startTime + TouchAutoRepeatRate)))
    // Released only from confirm-up, untouched, once the debounce period is over.
    ensures r.kind == Released <==>
      m.state == ConfirmTouchUp && !s.touched && s.now >= m.startTime + TouchDebouncePeriod
    ensures r.kind == Released ==> r.next.state == WaitingForTouchDown
    // Only Pushed latches new coordinates; Pushed and Repeat restart the timer.
    ensures r.kind != Pushed ==> r.next.recordedX == m.recordedX && r.next.recordedY == m.recordedY
    ensures r.kind == Pushed || r.kind == Repeat ==> r.next.startTime == s.now
    // A Repeat moves to the after-auto-repeat state and keeps the latch.
    ensures r.kind == Repeat ==> r.next == m.(state := WaitingForTouchUpAfterAutoRepeat, startTime := s.now)
    // A touch while idle starts the press debounce timer.
    ensures m.state == WaitingForTouchDown ==>
      r.next == if s.touched then m.(state := ConfirmTouchDown, startTime := s.now) else m
    // A lift while held starts confirming the release; the timer is kept.
    ensures (m.state == WaitingForTouchUp || m.state == WaitingForTouchUpAfterAutoRepeat) && !s.touched ==>
      r.next == m.(state := ConfirmTouchUp)
    // A poll that neither reports nor changes state changes nothing, except
    // that a re-touch in confirm-up restarts the timer.
    ensures r.kind == NoEvent && r.next.state == m.state ==>
      r.next == m || (m.state == ConfirmTouchUp && s.touched && r.next == m.(startTime := s.now))
  {
    match m.state
    case WaitingForTouchDown =>
      if s.touched then StepResult(m.(state := ConfirmTouchDown, startTime := s.now), NoEvent)
      else StepResult(m, NoEvent)
    case ConfirmTouchDown =>
      if s.now < m.startTime + TouchDebouncePeriod then StepResult(m, NoEvent)
      else if !s.touched then StepResult(m.(state := WaitingForTouchDown), NoEvent)
      else StepResult(Machine(WaitingForTouchUp, s.now, s.x, s.y), Pushed)
    case WaitingForTouchUp =>
      if !s.touched then StepResult(m.(state := ConfirmTouchUp), NoEvent)
      else if s.now < m.startTime + TouchAutoRepeatDelay then StepResult(m, NoEvent)
      else StepResult(m.(state := WaitingForTouchUpAfterAutoRepeat, startTime := s.now), Repeat)
    case WaitingForTouchUpAfterAutoRepeat =>
      if !s.touched then StepResult(m.(state := ConfirmTouchUp), NoEvent)
      else if s.now < m.startTime + TouchAutoRepeatRate then StepResult(m, NoEvent)
      else StepResult(m.(startTime := s.now), Repeat)
    case ConfirmTouchUp =>
      if s.touched then StepResult(m.(startTime := s.now), NoEvent)
      else if s.now < m.startTime + TouchDebouncePeriod then StepResult(m, NoEvent)
      else StepResult(m.(state := WaitingForTouchDown), Released)
  }

  /** A bounce on press: if the sample taken once the debounce period is over
      is untouched, the machine goes back to waiting and reports nothing. */
  lemma BounceOnPressIsRejected(m: Machine, s: Sample)
    requires m.state == ConfirmTouchDown && s.now >= m.startTime + TouchDebouncePeriod && !s.touched
    ensures Step(m, s) == StepResult(m.(state := WaitingForTouchDown), NoEvent)
  {
  }

  /** A re-touch while the release is being confirmed restarts the timer and
      stays in confirm-up without an event. */
  lemma RetouchRestartsReleaseTimer(m: Machine, s: Sample)
    requires m.state == ConfirmTouchUp && s.touched
    ensures Step(m, s) == StepResult(m.(startTime := s.now), NoEvent)
  {
  }

  // ---------------------------------------------------------------------------
  // Runs: a sequence of polls
  // ---------------------------------------------------------------------------

  /** An event together with the time of the poll that reported it. */
  datatype TimedEvent = TimedEvent(time: nat, kind: EventKind, x: int, y: int)

  /** Stands for "no event reported yet". */
  const NoPreviousEvent := TimedEvent(0, NoEvent, 0, 0)

  /** Samples whose times never decrease and are no earlier than `from`. */
  ghost predicate Chronological(samples: seq<Sample>, from: nat)
    decreases |samples|
  {
    samples == [] || (from <= samples[0].now && Chronological(samples[1..], samples[0].now))
  }

  /** The final machine and the events (NoEvent polls dropped) of a run. */
  function Run(m: Machine, samples: seq<Sample>): (r: (Machine, seq<TimedEvent>))
    ensures forall i :: 0 <= i < |r.1| ==> r.1[i].kind != NoEvent
    decreases |samples|
  {
    if samples == [] then (m, [])
    else
      var step := Step(m, samples[0]);
      var rest := Run(step.next, samples[1..]);
      if step.kind == NoEvent then rest
      else (rest.0, [TimedEvent(samples[0].now, step.kind, step.next.recordedX, step.next.recordedY)] + rest.1)
  }

  /** Which event may come right after `prev`: a press starts a cycle (at
      least one debounce period after the previous release), repeats and the
      release belong to the cycle, report the coordinates latched at the
      press, and respect the auto-repeat delay, the repeat rate and the
      release debounce period. */
  predicate MayFollow(prev: TimedEvent, e: TimedEvent)
  {
    match e.kind
    case NoEvent => false
    case Pushed =>
      prev.kind == NoEvent || (prev.kind == Released && e.time >= prev.time + TouchDebouncePeriod)
    case Repeat =>
      e.x == prev.x && e.y == prev.y &&
      ((prev.kind == Pushed && e.time >= prev.time + TouchAutoRepeatDelay) ||
       (prev.kind == Repeat && e.time >= prev.time + TouchAutoRepeatRate))
    case Released =>
      e.x == prev.x && e.y == prev.y && (prev.kind == Pushed || prev.kind == Repeat) &&
      e.time >= prev.time + TouchDebouncePeriod
  }

  /** The events follow the pattern (Pushed Repeat* Released)* with the
      timing and latching of MayFollow, starting after `prev`. */
  ghost predicate WellOrdered(events: seq<TimedEvent>, prev: TimedEvent)
    decreases |events|
  {
    events == [] || (MayFollow(prev, events[0]) && WellOrdered(events[1..], events[0]))
  }

  /** How the machine's state relates to the last event it reported. */
  ghost predicate Consistent(m: Machine, prev: TimedEvent)
  {
    match m.state
    case WaitingForTouchDown =>
      prev.kind == NoEvent || prev.kind == Released
    case ConfirmTouchDown =>
      prev.kind == NoEvent || (prev.kind == Released && m.startTime >= prev.time)
    case WaitingForTouchUp =>
      prev.kind == Pushed && m.startTime == prev.time && m.recordedX == prev.x && m.recordedY == prev.y
    case WaitingForTouchUpAfterAutoRepeat =>
      prev.kind == Repeat && m.startTime == prev.time && m.recordedX == prev.x && m.recordedY == prev.y
    case ConfirmTouchUp =>
      (prev.kind == Pushed || prev.kind == Repeat) && m.startTime >= prev.time &&
      m.recordedX == prev.x && m.recordedY == prev.y
  }

  /** One poll keeps Consistent, and an event it reports may follow the
      previous one. */
  lemma StepKeepsConsistent(m: Machine, prev: TimedEvent, s: Sample)
    requires Consistent(m, prev) && prev.time <= s.now
    ensures var r := Step(m, s);
      if r.kind == NoEvent then Consistent(r.next, prev)
      else
        var e := TimedEvent(s.now, r.kind, r.next.recordedX, r.next.recordedY);
        MayFollow(prev, e) && Consistent(r.next, e)
  {
  }

  /** Every run from a consistent machine over chronological samples reports
      well-ordered events. */
  lemma {:induction false} RunIsWellOrdered(m: Machine, prev: TimedEvent, from: nat, samples: seq<Sample>)
    requires Consistent(m, prev) && prev.time <= from && Chronological(samples, from)
    ensures WellOrdered(Run(m, samples).1, prev)
    decreases |samples|
  {
    if samples != [] {
      var s := samples[0];
      var r := Step(m, s);
      StepKeepsConsistent(m, prev, s);
      if r.kind == NoEvent {
        RunIsWellOrdered(r.next, prev, s.now, samples[1..]);
      } else {
        var e := TimedEvent(s.now, r.kind, r.next.recordedX, r.next.recordedY);
        RunIsWellOrdered(r.next, e, s.now, samples[1..]);
        assert Run(m, samples).1 == [e] + Run(r.next, samples[1..]).1;
      }
    }
  }

  /** From power-up, whatever the samples, the reported events are
      well-ordered: Pushed, Repeat..., Released, each Repeat and Released at
      the press's coordinates, the first Repeat at least 800 ms after Pushed,
      later ones at least 120 ms apart, Released at least 30 ms after the
      last Pushed or Repeat. */
  lemma EventsFromPowerUpAreWellOrdered(samples: seq<Sample>)
    requires Chronological(samples, 0)
    ensures WellOrdered(Run(InitialMachine, samples).1, NoPreviousEvent)
  {
    RunIsWellOrdered(InitialMachine, NoPreviousEvent, 0, samples);
  }

  /** Debounce on press: while the machine is idle, a touch that lasts less
      than the debounce period (every touched sample is earlier than
      `touchStart` + 30 ms) is never reported. */
  lemma {:induction false} ShortTouchIsIgnored(m: Machine, touchStart: nat, samples: seq<Sample>)
    requires m.state == WaitingForTouchDown || (m.state == ConfirmTouchDown && m.startTime >= touchStart)
    requires Chronological(samples, touchStart)
    requires forall i :: 0 <= i < |samples| && samples[i].touched ==> samples[i].now < touchStart + TouchDebouncePeriod
    ensures Run(m, samples).1 == []
    decreases |samples|
  {
    if samples != [] {
      var s := samples[0];
      var r := Step(m, s);
      assert r.kind == NoEvent;
      assert r.next.state == WaitingForTouchDown || (r.next.state == ConfirmTouchDown && r.next.startTime >= touchStart);
      assert forall i :: 0 <= i < |samples[1..]| ==> samples[1..][i] == samples[i + 1];
      ShortTouchIsIgnored(r.next, touchStart, samples[1..]);
    }
  }

  /** While the screen stays touched, a held machine never reports a new
      press: every event it reports is a Repeat. */
  lemma {:induction false} HeldNeverPushes(m: Machine, samples: seq<Sample>)
    requires m.state == WaitingForTouchUp || m.state == WaitingForTouchUpAfterAutoRepeat
    requires forall i :: 0 <= i < |samples| ==> samples[i].touched
    ensures forall i :: 0 <= i < |Run(m, samples).1| ==> Run(m, samples).1[i].kind == Repeat
    decreases |samples|
  {
    if samples != [] {
      var r := Step(m, samples[0]);
      assert forall i :: 0 <= i < |samples[1..]| ==> samples[1..][i] == samples[i + 1];
      HeldNeverPushes(r.next, samples[1..]);
    }
  }

  /** Debounce on press, the other half: a touch that is still there once the
      debounce period is over is reported exactly once. If every sample is
      touched and sample j is the first taken at least 30 ms after the touch
      began, the run's first event is Pushed at sample j, with its
      coordinates, and every later event is a Repeat. */
  lemma {:induction false} ConfirmedTouchIsPushedOnce(m: Machine, samples: seq<Sample>, j: int)
    requires m.state == ConfirmTouchDown
    requires forall i :: 0 <= i < |samples| ==> samples[i].touched
    requires 0 <= j < |samples| && samples[j].now >= m.startTime + TouchDebouncePeriod
    requires forall i :: 0 <= i < j ==> samples[i].now < m.startTime + TouchDebouncePeriod
    ensures var events := Run(m, samples).1;
      |events| >= 1 && events[0] == TimedEvent(samples[j].now, Pushed, samples[j].x, samples[j].y) &&
      forall i :: 0 <= i < |events| ==> (events[i].kind == Pushed <==> i == 0)
    decreases j
  {
    var r := Step(m, samples[0]);
    assert forall i :: 0 <= i < |samples[1..]| ==> samples[1..][i] == samples[i + 1];
    if j == 0 {
      HeldNeverPushes(r.next, samples[1..]);
      var e := TimedEvent(samples[0].now, Pushed, samples[0].x, samples[0].y);
      assert Run(m, samples).1 == [e] + Run(r.next, samples[1..]).1;
    } else {
      assert r == StepResult(m, NoEvent);
      ConfirmedTouchIsPushedOnce(m, samples[1..], j - 1);
    }
  }

  /** The release timer is not restarted when the touch is lifted: it still
      counts from the press (or the last repeat or re-touch). So once the
      debounce period since then is over, the poll right after the lift
      reports Released, at the coordinates latched at the press. */
  lemma ReleaseTimerCountsFromPress(m: Machine, lift: Sample, s: Sample)
    requires m.state == WaitingForTouchUp || m.state == WaitingForTouchUpAfterAutoRepeat
    requires !lift.touched && !s.touched && s.now >= m.startTime + TouchDebouncePeriod
    ensures Run(m, [lift, s]) ==
      (m.(state := WaitingForTouchDown), [TimedEvent(s.now, Released, m.recordedX, m.recordedY)])
  {
    var lifted := m.(state := ConfirmTouchUp);
    assert [lift, s][1..] == [s];
    assert [s][1..] == [];
    assert Step(m, lift) == StepResult(lifted, NoEvent);
    assert Step(lifted, s) == StepResult(m.(state := WaitingForTouchDown), Released);
    var e := TimedEvent(s.now, Released, m.recordedX, m.recordedY);
    assert [e] + Run(m.(state := WaitingForTouchDown), []).1 == [e];
    assert Run(lifted, [s]) == (m.(state := WaitingForTouchDown), [TimedEvent(s.now, Released, m.recordedX, m.recordedY)]);
  }
}
