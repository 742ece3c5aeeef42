/**
 * The program of wav-player.py as an object whose fields are the state the
 * script changes as it runs: the levels of the two status outputs, the trace
 * of what it has done, and how many button polls it has taken.  Each method
 * is proved to do what the functions of `Sequencer` say.
 */
module Player {
  import opened Options
  import Debounce
  import opened Playlist
  import opened Events
  import opened Sequencer
  import SequencerProperties

  class WavPlayer {
    /** Level of the Playing output (BCM 17). */
    var playing: bool
    /** Level of the Idle output (BCM 27). */
    var idle: bool
    /** Everything observable the program has done so far. */
    var trace: seq<Event>
    /** The levels the button pin (`GpioButtonTrigger`, BCM 4) reads at successive polls; true is high. */
    const input: seq<bool>
    /** Number of polls taken so far. */
    var cursor: nat

    /**
     * The output fields are the levels the trace has written, and the cursor
     * is where the last debounced wait of the trace returned.
     */
    ghost predicate Valid()
      reads this
    {
      && cursor <= |input|
      && Outputs(playing, idle) == Replay(Undriven, trace)
      && cursor == ChainEnd(Waits(trace), 0)
    }

    /** Lines 65-69: GPIO set up; output pins taken as low, nothing polled yet. */
    constructor (input: seq<bool>)
      ensures Valid()
      ensures this.input == input && cursor == 0 && trace == []
      ensures !playing && !idle
    {
      this.input := input;
      playing, idle := false, false;
      trace := [];
      cursor := 0;
    }

    /** GPIO.output(pin, level). */
    method Output(pin: nat, high: bool)
      requires Valid()
      modifies this`playing, this`idle, this`trace
      ensures Valid()
      ensures trace == old(trace) + [Wrote(pin, high)]
      ensures Outputs(playing, idle) == Apply(old(Outputs(playing, idle)), Wrote(pin, high))
    {
      ReplayAppend(Undriven, trace, [Wrote(pin, high)]);
      WaitsAppendOne(trace, Wrote(pin, high));
      if pin == GpioOutputPlaying {
        playing := high;
      } else if pin == GpioOutputIdle {
        idle := high;
      }
      trace := trace + [Wrote(pin, high)];
    }

    /** `Log(Message)` (lines 49-51): the console and syslog lines are one entry. */
    method Log(message: Message)
      requires Valid()
      modifies this`trace
      ensures Valid()
      ensures trace == old(trace) + [Logged(message)]
    {
      ReplayAppend(Undriven, trace, [Logged(message)]);
      WaitsAppendOne(trace, Logged(message));
      trace := trace + [Logged(message)];
    }

    /**
     * `WaitForButton(Pressed)` (lines 32-43) on the pin's polls from `cursor`;
     * returns false when the polls run out before the button settles.
     */
    method WaitForButton(pressed: bool) returns (returned: bool)
      requires Valid()
      modifies this`cursor, this`trace
      ensures Valid()
      ensures returned == Debounce.FirstStable(input, pressed, old(cursor)).Some?
      ensures returned ==> cursor == Debounce.FirstStable(input, pressed, old(cursor)).value
      ensures returned ==> trace == old(trace) + [Debounced(pressed, cursor)]
      ensures !returned ==> cursor == old(cursor) && trace == old(trace)
    {
      var stop := Debounce.WaitForButton(input, cursor, pressed);
      returned := stop.Some?;
      if returned {
        ReplayAppend(Undriven, trace, [Debounced(pressed, stop.value)]);
        WaitsAppendOne(trace, Debounced(pressed, stop.value));
        cursor := stop.value;
        trace := trace + [Debounced(pressed, cursor)];
      }
    }

    /**
     * The player (lines 91-94) run on `path`; `ok` is false when it raised.
     * Its audio and its polling of the player state are not modelled.
     */
    method RunPlayer(path: string, ok: bool)
      requires Valid()
      modifies this`trace
      ensures Valid()
      ensures trace == old(trace) + [Played(path, ok)]
    {
      ReplayAppend(Undriven, trace, [Played(path, ok)]);
      WaitsAppendOne(trace, Played(path, ok));
      trace := trace + [Played(path, ok)];
    }

    /**
     * The `try` block of lines 90-99: the player run on `path`, then on
     * success Playing dropped and DONE logged, on an exception the two error
     * lines, with Playing left as it was.
     */
    method PlayFile(path: string, ok: bool)
      requires Valid()
      modifies this`playing, this`idle, this`trace
      ensures Valid()
      ensures trace == old(trace) + [Played(path, ok)] + FinishEvents(path, ok)
    {
      RunPlayer(path, ok);
      if ok {
        Output(GpioOutputPlaying, false);
        Log(Done(path));
      } else {
        Log(PlayerException);
        Log(PlayerHint);
      }
    }

    /** One iteration of `for WavFile in WavFiles` (lines 82-99). */
    method PlayNext(path: string, ok: bool) returns (resumed: bool)
      requires Valid()
      modifies this`playing, this`idle, this`trace, this`cursor
      ensures Valid()
      ensures trace == old(trace) + Track(path, input, old(cursor), ok).events
      ensures resumed == Track(path, input, old(cursor), ok).resume.Some?
      ensures resumed ==> cursor == Track(path, input, old(cursor), ok).resume.value
      ensures !resumed ==> cursor == ChainEnd(Waits(Track(path, input, old(cursor), ok).events), old(cursor))
    {
      ghost var start := trace;
      ghost var pos := cursor;
      var released := WaitForButton(false);
      if !released {
        return false;
      }
      ghost var releasedAt := cursor;
      Log(Idle);
      Output(GpioOutputIdle, true);
      ghost var pre := trace;
      assert pre == start + IdleEvents(releasedAt);
      var pressed := WaitForButton(true);
      if !pressed {
        SequencerProperties.IdleEventsFilters(releasedAt);
        return false;
      }
      ghost var pressedAt := cursor;
      Output(GpioOutputIdle, false);
      Log(Play(path));
      Output(GpioOutputPlaying, true);
      assert trace == pre + [Debounced(true, pressedAt), Wrote(GpioOutputIdle, false), Logged(Play(path)),
                             Wrote(GpioOutputPlaying, true)];
      PlayFile(path, ok);
      assert trace == pre + PressEvents(path, pressedAt, ok) + FinishEvents(path, ok);
      AppendAssoc(start, IdleEvents(releasedAt), PressEvents(path, pressedAt, ok), FinishEvents(path, ok));
      assert Track(path, input, pos, ok) == TrackRun(PlayEvents(path, releasedAt, pressedAt, ok), Some(pressedAt));
      return true;
    }

    /**
     * Iteration k of the flattened loop: START SEQUENCE when the walk is at
     * the first file (line 80), then the body for TrackFile(files, k).  What
     * it appends, followed by what is left of the loop after it, is what was
     * left of the loop before it.
     */
    method Iteration(files: seq<string>, results: seq<bool>, k: nat) returns (resumed: bool)
      requires Valid() && |files| > 0 && k < |results|
      modifies this`playing, this`idle, this`trace, this`cursor
      ensures Valid()
      ensures !resumed ==> trace == old(trace) + Loop(files, input, old(cursor), results, k).events
      ensures !resumed ==> Loop(files, input, old(cursor), results, k).status == Blocked
      ensures resumed ==> trace + Loop(files, input, cursor, results, k + 1).events ==
                          old(trace) + Loop(files, input, old(cursor), results, k).events
      ensures resumed ==> Loop(files, input, cursor, results, k + 1).status ==
                          Loop(files, input, old(cursor), results, k).status
      ensures !resumed ==>
                cursor == ChainEnd(Waits(Track(TrackFile(files, k), input, old(cursor), results[k]).events), old(cursor))
    {
      ghost var before := trace;
      ghost var pos := cursor;
      if k % |files| == 0 {
        Log(StartSequence);
      }
      resumed := PlayNext(TrackFile(files, k), results[k]);
      if resumed {
        SequencerProperties.LoopResumedTrace(before, trace, files, input, pos, results, k, cursor);
      } else {
        SequencerProperties.LoopBlockedTrace(before, trace, files, input, pos, results, k);
      }
    }

    /**
     * `while True: for WavFile in WavFiles` (lines 79-99), one iteration per
     * track, for as many tracks as `results` has entries or until a wait
     * blocks.  START SEQUENCE is logged whenever the walk is back at the
     * first file.
     */
    method PlayLoop(files: seq<string>, results: seq<bool>) returns (status: Status)
      requires Valid() && |files| > 0
      modifies this`playing, this`idle, this`trace, this`cursor
      ensures Valid()
      ensures trace == old(trace) + Loop(files, input, old(cursor), results, 0).events
      ensures status == Loop(files, input, old(cursor), results, 0).status
      ensures cursor == ChainEnd(Waits(trace), 0)
    {
      ghost var goal := old(trace) + Loop(files, input, cursor, results, 0).events;
      ghost var goalStatus := Loop(files, input, cursor, results, 0).status;
      var k := 0;
      while k < |results|
        invariant Valid() && k <= |results|
        invariant trace + Loop(files, input, cursor, results, k).events == goal
        invariant Loop(files, input, cursor, results, k).status == goalStatus
        decreases |results| - k
      {
        var resumed := Iteration(files, results, k);
        if !resumed {
          return Blocked;
        }
        k := k + 1;
      }
      assert Loop(files, input, cursor, results, k).events == [];
      return StillRunning;
    }

    /**
     * The program from line 70 on: outputs to their idle state, START, the
     * sorted playlist and its loop, or, with no files, ERROR 2 and the exit
     * sequence of lines 106-108.
     */
    method Run(globbed: seq<string>, results: seq<bool>) returns (status: Status)
      requires Valid() && trace == [] && cursor == 0
      modifies this`playing, this`idle, this`trace, this`cursor
      ensures Valid()
      ensures trace == Main(globbed, input, results).events
      ensures status == Main(globbed, input, results).status
      ensures cursor == ChainEnd(Waits(trace), 0)
    {
      Output(GpioOutputPlaying, false);
      Output(GpioOutputIdle, true);
      Log(Start(ProgramName, Version));
      assert trace == Startup;
      if globbed != [] {
        var files := Sort(globbed);
        assert |files| == |multiset(files)| == |globbed|;
        Log(ReadFiles(|files|, WavPattern));
        status := PlayLoop(files, results);
        return;
      }
      Log(NoFiles(WavPattern));
      Output(GpioOutputPlaying, false);
      Output(GpioOutputIdle, true);
      Log(Exit);
      assert trace == Startup + [Logged(NoFiles(WavPattern))] + Shutdown;
      return Exited;
    }
  }
}
