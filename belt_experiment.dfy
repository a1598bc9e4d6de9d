// The belt-conveyor experiment controller: the experiment life cycle, the
// automatic stop once the configured duration has elapsed, which of the four
// control buttons are enabled, and the calls the controller makes on its
// collaborators (conveyor, data logger, energy calculator, block, two charts).
// The clock is a parameter; the collaborators are recorded as the sequence of
// calls made on them, each made only when that collaborator is wired up.

module BeltExperiment {
  import opened Common
  import opened Experiments

  /** A call on a collaborator. */
  datatype Call =
    | StartBelt | StopBelt
    | StartRecording | StopRecording | ClearLoggerData
    | ClearEnergyHistory
    | ClearVelocityChart | ClearEnergyChart
    | ResetBlock
    | PlotVelocity(speed: real) | PlotEnergy(totalEnergy: real)

  /** Which collaborators are present (non-null) once the scene has been searched. */
  datatype Wiring = Wiring(conveyor: bool, dataLogger: bool, energyCalculator: bool,
                           velocityChart: bool, energyChart: bool, block: bool)

  /** Whether the start, pause, reset and stop buttons are interactable. */
  datatype Buttons = Buttons(start: bool, pause: bool, reset: bool, stop: bool)

  const DefaultDuration: real := 10.0
  const MinDuration: real := 1.0

  /** UpdateUIButtons: the buttons enabled in a state. */
  function ButtonsFor(state: ExperimentState): Buttons
  {
    Buttons(state == NotStarted || state == Paused, state == Running, state != NotStarted, state == Running)
  }

  /**
   * An enabled button never issues a command its guard turns away: start,
   * pause and reset are enabled exactly when the command acts (start only
   * outside Completed), while stop, enabled only when running, is refused in
   * Paused although StopExperiment would act there.
   */
  lemma EnabledButtonsAct(state: ExperimentState)
    ensures ButtonsFor(state).start <==> Accepts(state, Start) && state != Completed
    ensures ButtonsFor(state).pause <==> Accepts(state, Pause)
    ensures ButtonsFor(state).reset <==> state != NotStarted
    ensures ButtonsFor(state).stop ==> Accepts(state, Stop)
    ensures state == Paused ==> !ButtonsFor(state).stop && Accepts(state, Stop)
    ensures ButtonsFor(state).pause == ButtonsFor(state).stop
  {
  }

  /** The single call `c` when its collaborator is present. */
  function When(present: bool, c: Call): (r: seq<Call>)
    ensures present <==> r == [c]
    ensures !present <==> r == []
  {
    if present then [c] else []
  }

  function StartCalls(w: Wiring): seq<Call>
  {
    When(w.conveyor, StartBelt) + When(w.dataLogger, StartRecording)
    + When(w.velocityChart, ClearVelocityChart) + When(w.energyChart, ClearEnergyChart)
  }

  /** Pausing and stopping both halt the belt and end recording. */
  function HaltCalls(w: Wiring): seq<Call>
  {
    When(w.conveyor, StopBelt) + When(w.dataLogger, StopRecording)
  }

  function ResetCalls(w: Wiring): seq<Call>
  {
    When(w.block, ResetBlock) + When(w.dataLogger, ClearLoggerData) + When(w.energyCalculator, ClearEnergyHistory)
    + When(w.velocityChart, ClearVelocityChart) + When(w.energyChart, ClearEnergyChart)
  }

  /** UpdateCharts: each chart is fed only when both it and its data source are present. */
  function PlotCalls(w: Wiring, speed: real, totalEnergy: real): seq<Call>
  {
    When(w.velocityChart && w.dataLogger, PlotVelocity(speed))
    + When(w.energyChart && w.energyCalculator, PlotEnergy(totalEnergy))
  }

  // ---------------------------------------------------------------------------
  // Whether the belt is running
  // ---------------------------------------------------------------------------

  predicate IsBeltCall(c: Call)
  {
    c == StartBelt || c == StopBelt
  }

  predicate NoBeltCall(calls: seq<Call>)
  {
    forall i :: 0 <= i < |calls| ==> !IsBeltCall(calls[i])
  }

  /** The conveyor runs when the last of StartBelt and StopBelt was StartBelt, or, with neither, as configured. */
  function BeltRunning(calls: seq<Call>, initially: bool): bool
  {
    if |calls| == 0 then initially
    else if calls[|calls| - 1] == StartBelt then true
    else if calls[|calls| - 1] == StopBelt then false
    else BeltRunning(calls[..|calls| - 1], initially)
  }

  /** Calls that do not touch the belt leave it as it was. */
  lemma {:induction false} BeltRunningAppend(calls: seq<Call>, more: seq<Call>, initially: bool)
    requires NoBeltCall(more)
    ensures BeltRunning(calls + more, initially) == BeltRunning(calls, initially)
    decreases |more|
  {
    if |more| > 0 {
      var front, last := more[..|more| - 1], more[|more| - 1];
      assert !IsBeltCall(last);
      assert NoBeltCall(front) by {
        forall i | 0 <= i < |front|
          ensures !IsBeltCall(front[i])
        {
          assert front[i] == more[i];
        }
      }
      var all := calls + more;
      assert all[|all| - 1] == last;
      assert all[..|all| - 1] == calls + front;
      BeltRunningAppend(calls, front, initially);
    } else {
      assert calls + more == calls;
    }
  }

  /** After a belt call followed by calls that do not touch the belt, the belt is as that call left it. */
  lemma BeltRunningAfter(calls: seq<Call>, c: Call, more: seq<Call>, initially: bool)
    requires IsBeltCall(c) && NoBeltCall(more)
    ensures BeltRunning(calls + [c] + more, initially) == (c == StartBelt)
  {
    BeltRunningAppend(calls + [c], more, initially);
  }

  /**
   * What the conveyor does in each state, when there is one: it runs while the
   * experiment runs and stands while paused or completed. A reset does not
   * stop it, so nothing is promised before the experiment starts.
   */
  predicate BeltFollowsState(w: Wiring, state: ExperimentState, calls: seq<Call>, initially: bool)
  {
    w.conveyor ==>
      (state == Running ==> BeltRunning(calls, initially))
      && (state == Paused || state == Completed ==> !BeltRunning(calls, initially))
  }

  /** GetStateText. */
  function StateText(state: ExperimentState): (r: string)
  {
    match state
    case NotStarted => "状态: 未开始"
    case Running => "状态: 运行中"
    case Paused => "状态: 已暂停"
    case Completed => "状态: 已完成"
  }

  /** Each state is shown with its own text, so the status line identifies the state. */
  lemma StateTextDistinct(a: ExperimentState, b: ExperimentState)
    ensures StateText(a) == StateText(b) <==> a == b
  {
    if a != b {
      assert StateText(a)[4] != StateText(b)[4] || StateText(a)[5] != StateText(b)[5];
    }
  }

  class BeltConveyorExperimentController {
    const wiring: Wiring
    const autoStart: bool
    /** The conveyor's configured `_isRunning` before any call. */
    const beltInitiallyRunning: bool
    var state: ExperimentState
    var startTime: real
    var elapsed: real
    var duration: real
    var buttons: Buttons
    /** The calls made on the collaborators, oldest first. */
    var calls: seq<Call>

    predicate Valid()
      reads this
    {
      buttons == ButtonsFor(state) && BeltFollowsState(wiring, state, calls, beltInitiallyRunning)
    }

    /** The conveyor is running now, when there is one. */
    function BeltIsRunning(): bool
      reads this
    {
      BeltRunning(calls, beltInitiallyRunning)
    }

    /** Start: set up the buttons for the initial state, then start at once when configured to. */
    constructor (now: real, w: Wiring, auto: bool, configuredDuration: real, beltInitially: bool)
      ensures Valid()
      ensures wiring == w && autoStart == auto && beltInitiallyRunning == beltInitially && duration == configuredDuration
      ensures !auto ==> state == NotStarted && elapsed == 0.0 && calls == []
      ensures auto ==> state == Running && startTime == now && elapsed == 0.0 && calls == StartCalls(w)
    {
      wiring := w;
      autoStart := auto;
      beltInitiallyRunning := beltInitially;
      duration := configuredDuration;
      state := NotStarted;
      startTime := 0.0;
      elapsed := 0.0;
      calls := [];
      buttons := ButtonsFor(NotStarted);
      new;
      if auto {
        StartExperiment(now);
      }
    }

    /**
     * StartExperiment: from any state but Running the experiment starts over
     * with nothing elapsed (so a paused experiment restarts rather than
     * resumes), the belt and the recording start and both charts are cleared.
     */
    method StartExperiment(now: real)
      requires Valid()
      modifies this`state, this`startTime, this`elapsed, this`buttons, this`calls
      ensures Valid()
      ensures state == Transition(old(state), Start) == Running
      ensures old(state) == Running ==>
                startTime == old(startTime) && elapsed == old(elapsed) && calls == old(calls)
      ensures old(state) != Running ==>
                startTime == now && elapsed == 0.0 && calls == old(calls) + StartCalls(wiring)
      ensures wiring.conveyor ==> BeltIsRunning()
    {
      if state == Running {
        return;
      }
      state := Running;
      startTime := now;
      elapsed := 0.0;
      calls := calls + StartCalls(wiring);
      if wiring.conveyor {
        BeltRunningAfter(old(calls), StartBelt, StartCalls(wiring)[1..], beltInitiallyRunning);
        assert old(calls) + [StartBelt] + StartCalls(wiring)[1..] == calls;
      }
      buttons := ButtonsFor(state);
    }

    /** Halt the belt and the recording, for Pause and Stop alike. */
    method Halt()
      modifies this`calls
      ensures calls == old(calls) + HaltCalls(wiring)
      ensures wiring.conveyor ==> !BeltIsRunning()
      ensures !wiring.conveyor ==> BeltIsRunning() == old(BeltIsRunning())
    {
      calls := calls + HaltCalls(wiring);
      if wiring.conveyor {
        BeltRunningAfter(old(calls), StopBelt, HaltCalls(wiring)[1..], beltInitiallyRunning);
        assert old(calls) + [StopBelt] + HaltCalls(wiring)[1..] == calls;
      } else {
        BeltRunningAppend(old(calls), HaltCalls(wiring), beltInitiallyRunning);
      }
    }

    /** PauseExperiment: only a running experiment pauses; elapsed time is kept. */
    method PauseExperiment()
      requires Valid()
      modifies this`state, this`buttons, this`calls
      ensures Valid()
      ensures state == Transition(old(state), Pause)
      ensures old(state) == Running ==> calls == old(calls) + HaltCalls(wiring)
      ensures old(state) != Running ==> calls == old(calls)
    {
      if state != Running {
        return;
      }
      state := Paused;
      Halt();
      buttons := ButtonsFor(state);
    }

    /**
     * ResumeExperiment: only a paused experiment resumes, with the start time
     * moved so that the elapsed time carries on from where it stopped; only
     * the belt is restarted.
     */
    method ResumeExperiment(now: real)
      requires Valid()
      modifies this`state, this`startTime, this`buttons, this`calls
      ensures Valid()
      ensures state == Transition(old(state), Resume)
      ensures old(state) == Paused ==>
                startTime == now - elapsed && calls == old(calls) + When(wiring.conveyor, StartBelt)
      ensures old(state) != Paused ==> startTime == old(startTime) && calls == old(calls)
    {
      if state != Paused {
        return;
      }
      state := Running;
      startTime := now - elapsed;
      calls := calls + When(wiring.conveyor, StartBelt);
      if wiring.conveyor {
        assert calls == old(calls) + [StartBelt] + [];
        BeltRunningAfter(old(calls), StartBelt, [], beltInitiallyRunning);
      }
      buttons := ButtonsFor(state);
    }

    /** StopExperiment: any started experiment completes. */
    method StopExperiment()
      requires Valid()
      modifies this`state, this`buttons, this`calls
      ensures Valid()
      ensures state == Transition(old(state), Stop)
      ensures old(state) != NotStarted ==> calls == old(calls) + HaltCalls(wiring)
      ensures old(state) == NotStarted ==> calls == old(calls)
    {
      if state == NotStarted {
        return;
      }
      state := Completed;
      Halt();
      buttons := ButtonsFor(state);
    }

    /**
     * ResetExperiment: back to NotStarted with nothing elapsed, the block reset
     * and all recorded data cleared. It makes no belt call, so a conveyor
     * running when the experiment is reset keeps running.
     */
    method ResetExperiment()
      requires Valid()
      modifies this`state, this`elapsed, this`buttons, this`calls
      ensures Valid()
      ensures state == Transition(old(state), Reset) && elapsed == 0.0
      ensures calls == old(calls) + ResetCalls(wiring)
      ensures BeltIsRunning() == old(BeltIsRunning())
    {
      state := NotStarted;
      elapsed := 0.0;
      calls := calls + ResetCalls(wiring);
      BeltRunningAppend(old(calls), ResetCalls(wiring), beltInitiallyRunning);
      buttons := ButtonsFor(state);
    }

    /**
     * Update: a running experiment measures its elapsed time, feeds the charts
     * with the logger's current speed and the calculator's total energy, and
     * stops itself once the elapsed time reaches the duration.
     */
    method Update(now: real, currentSpeed: real, totalEnergy: real)
      requires Valid()
      modifies this`state, this`elapsed, this`buttons, this`calls
      ensures Valid()
      ensures old(state) == Running ==>
                elapsed == now - startTime
                && (state == Completed <==> elapsed >= duration)
                && (state == Running <==> elapsed < duration)
                && calls == old(calls) + PlotCalls(wiring, currentSpeed, totalEnergy)
                             + (if elapsed >= duration then HaltCalls(wiring) else [])
      ensures old(state) != Running ==> state == old(state) && elapsed == old(elapsed) && calls == old(calls)
    {
      if state == Running {
        elapsed := now - startTime;
        calls := calls + PlotCalls(wiring, currentSpeed, totalEnergy);
        BeltRunningAppend(old(calls), PlotCalls(wiring, currentSpeed, totalEnergy), beltInitiallyRunning);
        if elapsed >= duration {
          StopExperiment();
        }
      }
    }

    /** SetExperimentDuration: durations below one second are raised to one. */
    method SetExperimentDuration(d: real)
      modifies this`duration
      ensures duration >= MinDuration
      ensures d >= MinDuration ==> duration == d
      ensures d < MinDuration ==> duration == MinDuration
    {
      duration := if MinDuration >= d then MinDuration else d;
    }
  }

  /** A paused experiment restarted with the start button loses its elapsed time. */
  method StartFromPausedRestarts(c: BeltConveyorExperimentController, now: real)
    requires c.Valid() && c.state == Paused
    modifies c
    ensures c.Valid() && c.state == Running && c.elapsed == 0.0 && c.startTime == now
  {
    c.StartExperiment(now);
  }

  /** Pausing and resuming keeps the elapsed time: the next update measures on from it. */
  method PauseResumeKeepsElapsed(c: BeltConveyorExperimentController, pausedAt: real, resumedAt: real, later: real,
                                 speed: real, energy: real)
    requires c.Valid() && c.state == Running
    modifies c
    ensures c.Valid()
    ensures c.elapsed == old(c.elapsed) + (later - resumedAt)
  {
    c.PauseExperiment();
    c.ResumeExperiment(resumedAt);
    c.Update(later, speed, energy);
  }
}
