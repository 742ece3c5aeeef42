# wav-player in Dafny

`wav-player.py` runs on a Raspberry Pi. It plays the WAV files that match
`/home/pi/Shows/show*.wav`, one each time a GPIO button is pressed.

The button is on BCM pin 4. The pin is pulled up, so a press reads low. The
program drives two status outputs: Playing on BCM 17 and Idle on BCM 27.

This project models the two parts of the script that carry logic:

- **The button debouncer, `WaitForButton`** (`debounce.dfy`, module `Debounce`).
  - The pin's successive polls are a `seq<bool>`, where `true` means high.
  - The method runs the script's counter loop. The counter goes up on each
    poll that agrees with the wanted state and drops to 0 on each poll that
    does not. The wait returns when the counter reaches 100.
  - The method is proved equal to a reference definition, `FirstStable`:
    the first poll count at which the last 100 polls all agree.
  - It is also proved that the counter always equals the length of the run
    of agreeing polls that ends at the current poll.
- **The sequencer** (lines 65-108). Its parts:
  - The playlist (`playlist.dfy`, module `Playlist`) is the glob result run
    through `sorted`. Python orders strings by code point, with a prefix
    first, so that order is defined here (`LexLe`). A sorted permutation is
    unique, so an insertion sort gives the list `sorted` gives.
  - What a run does that can be observed (`events.dfy`, module `Events`):
    - the writes to the two outputs;
    - the log lines, as `Message` values;
    - the debounced waits, with the poll index where each one returned;
    - the calls of the player, each with its success or exception.

    `Replay` folds a trace into the output levels. `Plays`, `Waits` and
    `Messages` pick out one kind of event each.
  - The whole run as a function (`sequencer.dfy`, module `Sequencer`):
    `Main` gives the trace and the final status for a glob result, the
    button polls and one playback result per track. `while True: for
    WavFile in WavFiles` becomes one iteration per track. Iteration k plays
    file `k mod n` and logs START SEQUENCE when `k mod n = 0`.
  - The program as an object (`player.dfy`, class `Player.WavPlayer`):
    - Fields: the two output levels, the trace and the poll cursor.
    - One method per step of the script: `Output`, `Log`, `WaitForButton`,
      the player call, the `try` block, one loop iteration, the loop itself
      and the whole program.
    - Every method is proved to append exactly the events the `Sequencer`
      functions describe.
    - The invariant `Valid` ties the output fields to `Replay` of the trace,
      and the cursor to the poll where the trace's last debounced wait
      returned (`ChainEnd`).
  - Lemmas about `Main` (`properties.dfy`, module `SequencerProperties`):
    - the cyclic order of playback, with the wrap back to the first file;
    - the order of events around every player call;
    - the chain of debounced waits;
    - the empty-playlist path;
    - the outputs are never both high while all playbacks succeed;
    - a concrete run in which a playback exception leaves both outputs high.

The model follows the code as written. In particular:

- PLAY is logged before Playing is raised (lines 88-89).
- IDLE is logged before Idle is raised (lines 84-85).
- A playback exception does not lower Playing: lines 97-99 only log.
  - The next IDLE therefore raises Idle while Playing is still high.
  - `FailureLeavesBothHigh` exhibits this on a concrete run.
  - `ExclusiveWhileAllSucceed` proves that it cannot happen while every
    playback succeeds.
- Both outputs are low from each DONE until the next IDLE, not only between
  lines 87 and 89.
- No step stops an externally started player before playback, so none is
  modelled.

## Model

| member | source | states |
|---|---|---|
| Debounce.InDesiredState | wav-player.py:35-38 | For a press a poll agrees exactly when the pin reads low; for a release exactly when it reads high |
| Debounce.FirstStable | wav-player.py:33-42 | The result is a point where at least 100 polls were taken and the last 100 all agree, no earlier point is one, and None means no point in the input is one |
| Debounce.Counter | wav-player.py:33-42 | The counter after a stretch of polls never exceeds the number of polls taken |
| Debounce.CounterIsRunLength | wav-player.py:33-42 | The counter is at least k exactly when at least k polls were taken and the last k of them all agree: an agreeing poll adds one and a disagreeing poll resets it to 0 |
| Debounce.StableIffCounter | wav-player.py:34 | The counter reaches 100 exactly at the points where the last 100 polls agree |
| Debounce.WaitForButton | wav-player.py:32-43 | The loop returns right after the first poll at which the last 100 polls all agree, never earlier, with the counter at exactly 100; it returns None only if no such point exists in the input |
| Debounce.CounterBounded | wav-player.py:33-42 | While the wait has not returned, the counter stays within 0..100 |
| Debounce.CleanWindowReturnsAfterThreshold | wav-player.py:33-34 | If the button is already in the wanted state, a wait still takes exactly 100 polls, because the counter starts at 0 |
| Debounce.GlitchDiscardsProgress | wav-player.py:39-42 | After one disagreeing poll the wait cannot return before another 100 agreeing polls |
| Debounce.GlitchAtLastPoll | wav-player.py:39-42 | 99 agreeing polls then 1 disagreeing poll put the counter at 99 and then at 0, and the wait returns no earlier than 200 polls after it started |
| Playlist.LexLeReflexive | wav-player.py:77 | The string order of `sorted` is reflexive |
| Playlist.LexLeAntisymmetric | wav-player.py:77 | Two strings ordered both ways are equal |
| Playlist.LexLeTransitive | wav-player.py:77 | The string order is transitive |
| Playlist.LexLeTotal | wav-player.py:77 | Any two strings are ordered one way or the other |
| Playlist.LexLeAtFirstDifference | wav-player.py:77 | Strings are ordered by their first differing code point, and a prefix comes first |
| Playlist.Insert | wav-player.py:77 | Inserting into a sorted list gives a sorted list with the same members plus the new one |
| Playlist.Sort | wav-player.py:77 | The playlist is sorted and is a permutation of the glob result |
| Playlist.SortedPermutationUnique | wav-player.py:77 | Two sorted permutations of the same list are equal, so `Sort` agrees with Python's `sorted` |
| Playlist.SortIsTextual | wav-player.py:77 | show1, show10, show2 is the sorted order: names are compared as text, not by their numbers |
| Sequencer.Track | wav-player.py:83-99 | A track that reaches its playback has consumed at least two full debounce windows of polls (a release, then a press) and resumes within the input |
| Sequencer.TrackFile | wav-player.py:81 | The file of iteration k is an entry of the playlist |
| Sequencer.Loop | wav-player.py:79-99 | The loop never ends in the Exited status: it either blocks in a wait or is still running when the results run out |
| Sequencer.Main | wav-player.py:70-108 | The program reaches its exit sequence exactly when the glob matched nothing |
| Sequencer.Header | wav-player.py:80 | No contract of its own; HeaderEffect states what it does |
| SequencerProperties.HeaderEffect | wav-player.py:80 | START SEQUENCE is logged exactly when iteration k is at the first file (k mod n = 0); nothing else is logged, no wait is made and neither output changes |
| Sequencer.IdleEvents | wav-player.py:83-85 | No contract of its own; IdleEventsFilters and IdleEventsOutputs state what it does |
| SequencerProperties.IdleEventsFilters | wav-player.py:83-85 | The events hold the debounced release, the IDLE line and no player call |
| SequencerProperties.IdleEventsOutputs | wav-player.py:83-85 | Idle ends high and Playing keeps its level, so both are high exactly when Playing was high already |
| Sequencer.PressEvents | wav-player.py:86-92 | No contract of its own; PressEventsFilters and PressEventsOutputs state what it does |
| SequencerProperties.PressEventsFilters | wav-player.py:86-92 | The events hold the debounced press, the PLAY line of the file and one player call with its result |
| SequencerProperties.PressEventsOutputs | wav-player.py:86-92 | Idle ends low and Playing high; both are high at some point exactly when they were at the start |
| Sequencer.FinishEvents | wav-player.py:93-99 | No contract of its own; FinishEventsEffect states what it does |
| SequencerProperties.FinishEventsEffect | wav-player.py:93-99 | On success Playing is lowered and DONE is logged; on an exception the two error lines are logged and Playing keeps its level. Idle is untouched, and no wait or player call is made |
| Sequencer.PlayEvents | wav-player.py:83-99 | No contract of its own; PlayEventsFilters and PlayEventsOutputs state what it does |
| SequencerProperties.PlayEventsFilters | wav-player.py:83-99 | One iteration that gets both edges calls the player once, waits for a release then a press, and logs IDLE, PLAY and then DONE or the two error lines |
| SequencerProperties.PlayEventsOutputs | wav-player.py:83-99 | Such an iteration ends with Idle low, and with Playing low after success and high after an exception; it never has both outputs high exactly when Playing was low at its start |
| SequencerProperties.LoopPrefix | wav-player.py:70-78 | Startup and the READ line leave Playing low and Idle high and log START then READ with the count, with no wait, no player call and never both outputs high |
| SequencerProperties.ResetEffect | wav-player.py:106-108 | Playing low, Idle high and one log line (the shape of both the startup at lines 70-73 and the exit sequence) leave Playing low and Idle high from any levels |
| SequencerProperties.NoFilesLog | wav-player.py:100-108 | START, ERROR 2 and the exit sequence log exactly START, ERROR 2 and EXIT, with no wait, no player call and no write that raises Playing |
| SequencerProperties.NoFilesOutputs | wav-player.py:100-108 | The same events end with Playing low and Idle high and never have both outputs high |
| Events.Apply | wav-player.py:70-71 | A write to pin 17 sets the Playing level, a write to pin 27 the Idle level, and any other event changes neither |
| Events.Replay | wav-player.py:70-71 | No contract of its own; ReplayAppend and NeverBothHighAppend state how it composes |
| Events.ReplayAppend | wav-player.py:70-71 | The levels after two pieces of a trace are the levels after the first piece, replayed through the second |
| Events.NeverBothHighAppend | wav-player.py:70-71 | A trace never has both outputs high exactly when neither of its two pieces does, the second one starting from the levels the first leaves |
| SequencerProperties.EmptyPlaylist | wav-player.py:100-108 | With no files the log is START, ERROR 2 and EXIT. Playing is never written high, the player is never called and no wait is made. The run ends with Playing low and Idle high, and the outputs are never both high |
| SequencerProperties.NonEmptyPlaylist | wav-player.py:73-80 | With files, the log starts with START and READ with the file count, and after that holds only loop lines; EXIT is never logged |
| SequencerProperties.LoopPlays | wav-player.py:79-99 | From iteration k on, the j-th playback is TrackFile(files, k + j) with the (k + j)-th result; a run still going played one file per result |
| SequencerProperties.CyclicOrder | wav-player.py:77-81 | The j-th playback is entry j mod n of the sorted playlist, with the j-th result, and the sorted playlist has as many entries as the glob result |
| SequencerProperties.WrapsAround | wav-player.py:79-81 | After the last file the next playback is of the first file again |
| SequencerProperties.LoopWaits | wav-player.py:83-86 | From iteration k on, the waits alternate release and press, each returning at the first stable point after the previous one; a blocked run's pending wait has no stable point |
| SequencerProperties.WaitsChain | wav-player.py:83-86 | Over the whole run the waits alternate release and press, each at the first stable point after the previous wait; if the run blocks, the pending wait never settles |
| SequencerProperties.LoopFramed | wav-player.py:83-99 | Every player call of the loop is framed by the event order of one iteration |
| SequencerProperties.PlaybackFramed | wav-player.py:83-99 | Every player call is preceded by a release, IDLE, Idle high, a press, Idle low, PLAY of that file and Playing high. It is followed by Playing low and DONE on success, or by the two error lines on an exception |
| SequencerProperties.LoopExclusive | wav-player.py:85-96 | Entered with Playing low, a loop whose playbacks all succeed never has both outputs high |
| SequencerProperties.ExclusiveWhileAllSucceed | wav-player.py:70-96 | While every playback succeeds, both outputs are never high together: each time Idle is raised, Playing is already low |
| SequencerProperties.FailureThenIdleBothHigh | wav-player.py:95-99 | A playback that raises leaves Playing high, so the next debounced release raises Idle while Playing is high |
| SequencerProperties.FailureLeavesBothHigh | wav-player.py:95-99 | On a concrete one-file run whose first playback raises, both outputs become high together |
| Player.WavPlayer.constructor | wav-player.py:65-69 | After setup both outputs are taken as low, nothing has been done and no poll taken |
| Player.WavPlayer.Output | wav-player.py:70-71 | Writing a pin sets that output's level and appends the write to the trace |
| Player.WavPlayer.Log | wav-player.py:49-51 | Logging appends the message to the trace and changes nothing else |
| Player.WavPlayer.WaitForButton | wav-player.py:32-43 | The wait moves the cursor to the first stable point and records it; when there is none in the input it changes nothing and reports that |
| Player.WavPlayer.RunPlayer | wav-player.py:91-94 | The player call appends one playback event with its result |
| Player.WavPlayer.PlayFile | wav-player.py:90-99 | The try block appends the playback and then either Playing low and DONE, or the two error lines |
| Player.WavPlayer.PlayNext | wav-player.py:82-99 | One loop body appends exactly the events `Track` describes for its polls and result. It resumes where `Track` says; when a wait blocks, the cursor is where the last wait of the body returned, or unchanged |
| Player.WavPlayer.Iteration | wav-player.py:80-99 | One iteration: its events followed by the rest of the loop are the loop from here; when it blocks, the cursor is where its last wait returned |
| Player.WavPlayer.PlayLoop | wav-player.py:79-99 | The loop appends exactly the events of `Loop` and ends with its status, with the cursor where the last wait of the trace returned |
| Player.WavPlayer.Run | wav-player.py:70-108 | The program's trace and final status are those of `Main` for the same glob result, polls and playback results, and the cursor is where the last wait returned |

## Left out

- The RPi.GPIO calls (lines 65-69) are not modelled as hardware. The outputs are two fields, and their level before the first write is taken as low. The button is the sequence of poll levels.
- The `vlc` import check and ERROR 0 (lines 57-63) are left out: the model assumes the player library is present.
- The VLC player (lines 91-94) is reduced to one success-or-exception result per track. `MediaPlayer`, `play()` and the polling of `get_state()` are left out. So is a player that never reaches state 6 (Ended) without raising, for example one that stops in state 7 (Error). The loop at line 93 then spins for ever with Playing high, and the model has no such outcome.
- The `time.sleep` calls (lines 43, 82, 94) are left out. Time is counted in button polls.
- The glob (line 75) is not run: its result is an input sequence of paths.
- File names are Dafny strings, which hold Unicode scalar values only. Python's glob turns undecodable file-name bytes into lone surrogates (U+DC80-U+DCFF), and those names cannot be represented.
- `print` and `syslog` in `Log` (lines 49-51) are left out. A log line is recorded as a `Message` value, not as formatted text.
- The outer `except` and ERROR 1 (lines 102-104) are left out, because nothing in the model raises there.
- `while True` does not terminate. A run lasts for as many tracks as it is given playback results, or until a wait blocks.
- Debounce.WaitForButton: when the polls run out before the button settles, it returns None. The script would go on polling for ever.
- Stopping an externally started player before playback is not modelled, because the code has no such step.
