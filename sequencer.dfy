/**
 * The top level of wav-player.py (lines 65-108) as a function of its inputs:
 * the glob result, the levels the button pin reads at each poll, and whether
 * each playback runs to its end or raises.  The program itself never leaves
 * its `while True` loop; the model runs one loop iteration per supplied
 * playback result and then stops.
 */
module Sequencer {
  import opened Options
  import opened Debounce
  import opened Playlist
  import opened Events

  datatype Status =
    | Exited       // left the program through the final output reset and EXIT
    | Blocked      // a WaitForButton was still polling when the polls ran out
    | StillRunning // every supplied playback result was used; the loop goes on

  /** The events of one iteration of the playlist loop, and where polling resumes. */
  datatype TrackRun = TrackRun(events: seq<Event>, resume: Option<nat>)

  /** A whole run: its trace and how it ended. */
  datatype Outcome = Outcome(events: seq<Event>, status: Status)

  /** Lines 83-85: the release has been debounced, IDLE is logged and Idle raised. */
  function IdleEvents(released: nat): seq<Event>
  {
    [Debounced(false, released), Logged(Idle), Wrote(GpioOutputIdle, true)]
  }

  /**
   * Lines 83-99 for a wait that got both edges: Idle dropped, PLAY logged,
   * Playing raised, the player run, then either Playing dropped and DONE
   * logged, or the player's exception logged with Playing left high.
   */
  function PlayEvents(path: string, released: nat, pressed: nat, ok: bool): seq<Event>
  {
    IdleEvents(released) + PressEvents(path, pressed, ok) + FinishEvents(path, ok)
  }

  /** Lines 83-92 after the press: Idle dropped, PLAY logged, Playing raised, the player run. */
  function PressEvents(path: string, pressed: nat, ok: bool): seq<Event>
  {
    [Debounced(true, pressed), Wrote(GpioOutputIdle, false), Logged(Play(path)),
     Wrote(GpioOutputPlaying, true), Played(path, ok)]
  }

  /** Lines 93-99: on success Playing dropped and DONE logged, else the two error lines. */
  function FinishEvents(path: string, ok: bool): seq<Event>
  {
    if ok then [Wrote(GpioOutputPlaying, false), Logged(Done(path))]
    else [Logged(PlayerException), Logged(PlayerHint)]
  }

  /**
   * The body of `for WavFile in WavFiles` (lines 82-99) for `path`, with button
   * polls read from `pos` and the player's result `ok`.
   */
  function Track(path: string, s: seq<bool>, pos: nat, ok: bool): (r: TrackRun)
    ensures r.resume.Some? ==> pos + 2 * Threshold <= r.resume.value <= |s|
  {
    match FirstStable(s, false, pos)
    case None => TrackRun([], None)
    case Some(released) =>
      match FirstStable(s, true, released)
      case None => TrackRun(IdleEvents(released), None)
      case Some(pressed) => TrackRun(PlayEvents(path, released, pressed, ok), Some(pressed))
  }

  /** The file iteration k of the flattened loop plays. */
  function TrackFile(files: seq<string>, k: nat): (path: string)
    requires |files| > 0
    ensures path in files
  {
    files[k % |files|]
  }

  /** `START SEQUENCE` is logged each time the walk is back at the first file. */
  function Header(files: seq<string>, k: nat): seq<Event>
    requires |files| > 0
  {
    if k % |files| == 0 then [Logged(StartSequence)] else []
  }

  /**
   * The loop `while True: for WavFile in WavFiles` from its k-th iteration on,
   * flattened to one iteration per track: iteration k plays files[k % n].
   */
  function Loop(files: seq<string>, s: seq<bool>, pos: nat, results: seq<bool>, k: nat): (r: Outcome)
    requires |files| > 0 && pos <= |s| && k <= |results|
    ensures r.status != Exited
    decreases |results| - k
  {
    if k == |results| then Outcome([], StillRunning)
    else
      var t := Track(TrackFile(files, k), s, pos, results[k]);
      match t.resume
      case None => Outcome(Header(files, k) + t.events, Blocked)
      case Some(next) =>
        var rest := Loop(files, s, next, results, k + 1);
        Outcome(Header(files, k) + t.events + rest.events, rest.status)
  }

  const Startup: seq<Event> :=
    [Wrote(GpioOutputPlaying, false), Wrote(GpioOutputIdle, true), Logged(Start(ProgramName, Version))]

  const Shutdown: seq<Event> :=
    [Wrote(GpioOutputPlaying, false), Wrote(GpioOutputIdle, true), Logged(Exit)]

  /** The whole program from line 70 on, given the glob result `globbed`. */
  function Main(globbed: seq<string>, s: seq<bool>, results: seq<bool>): (r: Outcome)
    ensures r.status == Exited <==> globbed == []
  {
    if globbed == [] then
      Outcome(Startup + [Logged(NoFiles(WavPattern))] + Shutdown, Exited)
    else
      var files := Sort(globbed);
      assert |files| == |multiset(files)| == |multiset(globbed)| == |globbed|;
      var loop := Loop(files, s, 0, results, 0);
      Outcome(Startup + [Logged(ReadFiles(|files|, WavPattern))] + loop.events, loop.status)
  }
}
