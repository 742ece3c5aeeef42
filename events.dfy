/**
 * What the sequencer of wav-player.py does that can be observed: writes to
 * the two output pins, log lines, debounced waits that return, and calls to
 * the audio player.  A run is a trace of these events.
 */
module Events {

  const ProgramName: string := "wav-player.py"
  const Version: string := "1.909.181"
  const WavPattern: string := "/home/pi/Shows/show*.wav"

  /** BCM pin numbers: the button input and the two status outputs. */
  const GpioButtonTrigger: nat := 4
  const GpioOutputPlaying: nat := 17
  const GpioOutputIdle: nat := 27

  /** The lines the program logs, as values rather than formatted text. */
  datatype Message =
    | Start(program: string, version: string) // START <program> <version>
    | ReadFiles(count: nat, pattern: string)  // READ <n> FILES MATCHING '<pattern>'
    | StartSequence                           // START SEQUENCE
    | Idle                                    // IDLE
    | Play(path: string)                      // PLAY <path>
    | Done(path: string)                      // DONE <path>
    | PlayerException                         // *** ERROR 3: VLC EXCEPTION
    | PlayerHint                              // the remedy line logged after it
    | NoFiles(pattern: string)                // *** ERROR 2: NO FILES MATCH '<pattern>'
    | Exit                                    // EXIT

  datatype Event =
    | Wrote(pin: nat, high: bool)       // GPIO.output(pin, high)
    | Logged(message: Message)          // Log(message)
    | Debounced(pressed: bool, next: nat) // WaitForButton(pressed) returned; `next` polls consumed in all
    | Played(path: string, ok: bool)    // the player ran `path`; ok is false when it raised

  /** Levels of the Playing (17) and Idle (27) outputs. */
  datatype Outputs = Outputs(playing: bool, idle: bool)

  /**
   * The levels of the outputs before the program's first write.  GPIO.setup
   * without an initial level leaves a pin as it was; the model takes both as low.
   */
  const Undriven: Outputs := Outputs(false, false)

  function Apply(o: Outputs, e: Event): (r: Outputs)
    ensures e.Wrote? && e.pin == GpioOutputPlaying ==> r == o.(playing := e.high)
    ensures e.Wrote? && e.pin == GpioOutputIdle ==> r == o.(idle := e.high)
    ensures !(e.Wrote? && e.pin in {GpioOutputPlaying, GpioOutputIdle}) ==> r == o
  {
    match e
    case Wrote(pin, high) =>
      if pin == GpioOutputPlaying then o.(playing := high)
      else if pin == GpioOutputIdle then o.(idle := high)
      else o
    case _ => o
  }

  /** Output levels after the events of `t`, starting from `o`. */
  function Replay(o: Outputs, t: seq<Event>): Outputs
    decreases |t|
  {
    if t == [] then o else Replay(Apply(o, t[0]), t[1..])
  }

  lemma {:induction false} ReplayAppend(o: Outputs, a: seq<Event>, b: seq<Event>)
    ensures Replay(o, a + b) == Replay(Replay(o, a), b)
    decreases |a|
  {
    if a == [] {
      assert a + b == b;
    } else {
      HeadTailAppend(a, b);
      ReplayAppend(Apply(o, a[0]), a[1..], b);
    }
  }

  predicate BothHigh(o: Outputs)
  {
    o.playing && o.idle
  }

  /** Starting from `o`, no point of the trace has both outputs high. */
  predicate NeverBothHigh(o: Outputs, t: seq<Event>)
    decreases |t|
  {
    !BothHigh(o) && (t == [] || NeverBothHigh(Apply(o, t[0]), t[1..]))
  }

  lemma {:induction false} NeverBothHighAppend(o: Outputs, a: seq<Event>, b: seq<Event>)
    ensures NeverBothHigh(o, a + b) <==> NeverBothHigh(o, a) && NeverBothHigh(Replay(o, a), b)
    decreases |a|
  {
    if a == [] {
      assert a + b == b;
    } else {
      HeadTailAppend(a, b);
      NeverBothHighAppend(Apply(o, a[0]), a[1..], b);
    }
  }

  /** The player calls of a trace, in order. */
  function Plays(t: seq<Event>): (r: seq<Event>)
    ensures |r| <= |t|
    ensures forall i :: 0 <= i < |r| ==> r[i].Played?
    decreases |t|
  {
    if t == [] then []
    else (if t[0].Played? then [t[0]] else []) + Plays(t[1..])
  }

  /** The debounced waits of a trace, in order. */
  function Waits(t: seq<Event>): (r: seq<Event>)
    ensures |r| <= |t|
    ensures forall i :: 0 <= i < |r| ==> r[i].Debounced?
    decreases |t|
  {
    if t == [] then []
    else (if t[0].Debounced? then [t[0]] else []) + Waits(t[1..])
  }

  /** The log lines of a trace, in order. */
  function Messages(t: seq<Event>): (r: seq<Message>)
    ensures |r| <= |t|
    decreases |t|
  {
    if t == [] then []
    else (if t[0].Logged? then [t[0].message] else []) + Messages(t[1..])
  }

  lemma {:induction false} PlaysAppend(a: seq<Event>, b: seq<Event>)
    ensures Plays(a + b) == Plays(a) + Plays(b)
    decreases |a|
  {
    if a == [] {
      assert a + b == b;
    } else {
      HeadTailAppend(a, b);
      PlaysAppend(a[1..], b);
    }
  }

  lemma {:induction false} WaitsAppend(a: seq<Event>, b: seq<Event>)
    ensures Waits(a + b) == Waits(a) + Waits(b)
    decreases |a|
  {
    if a == [] {
      assert a + b == b;
    } else {
      HeadTailAppend(a, b);
      WaitsAppend(a[1..], b);
    }
  }

  /** Where the chain of waits `w` that started at `pos` has got to: the point the last one returned. */
  function ChainEnd(w: seq<Event>, pos: nat): nat
    requires forall i :: 0 <= i < |w| ==> w[i].Debounced?
  {
    if w == [] then pos else w[|w| - 1].next
  }

  /** Appending one event adds it to the waits exactly when it is a wait. */
  lemma WaitsAppendOne(t: seq<Event>, e: Event)
    ensures Waits(t + [e]) == Waits(t) + (if e.Debounced? then [e] else [])
  {
    WaitsAppend(t, [e]);
    assert [e][1..] == [];
  }

  lemma {:induction false} MessagesAppend(a: seq<Event>, b: seq<Event>)
    ensures Messages(a + b) == Messages(a) + Messages(b)
    decreases |a|
  {
    if a == [] {
      assert a + b == b;
    } else {
      HeadTailAppend(a, b);
      MessagesAppend(a[1..], b);
      var h := if a[0].Logged? then [a[0].message] else [];
      calc {
        Messages(a + b);
        h + Messages(a[1..] + b);
        h + (Messages(a[1..]) + Messages(b));
        (h + Messages(a[1..])) + Messages(b);
      }
    }
  }

  /** The three filters distribute over concatenation. */
  lemma FiltersAppend(a: seq<Event>, b: seq<Event>)
    ensures Plays(a + b) == Plays(a) + Plays(b)
    ensures Waits(a + b) == Waits(a) + Waits(b)
    ensures Messages(a + b) == Messages(a) + Messages(b)
  {
    PlaysAppend(a, b);
    WaitsAppend(a, b);
    MessagesAppend(a, b);
  }

  lemma HeadTailAppend<T>(a: seq<T>, b: seq<T>)
    requires a != []
    ensures (a + b)[0] == a[0] && (a + b)[1..] == a[1..] + b
  {
  }

  lemma AppendAssoc<T>(a: seq<T>, b: seq<T>, c: seq<T>, d: seq<T>)
    ensures (a + b + c) + d == a + (b + c + d)
  {
  }

  /** One event of a trace, looked at through the output levels. */
  lemma StepOutputs(t: seq<Event>, k: nat)
    requires k < |t|
    ensures forall o :: Replay(o, t[k..]) == Replay(Apply(o, t[k]), t[k + 1..])
    ensures forall o :: NeverBothHigh(o, t[k..]) <==> !BothHigh(o) && NeverBothHigh(Apply(o, t[k]), t[k + 1..])
  {
    assert t[k..][0] == t[k] && t[k..][1..] == t[k + 1..];
  }

  /** One event of a trace, looked at through the three filters. */
  lemma StepFilters(t: seq<Event>, k: nat)
    requires k < |t|
    ensures Plays(t[k..]) == (if t[k].Played? then [t[k]] else []) + Plays(t[k + 1..])
    ensures Waits(t[k..]) == (if t[k].Debounced? then [t[k]] else []) + Waits(t[k + 1..])
    ensures Messages(t[k..]) == (if t[k].Logged? then [t[k].message] else []) + Messages(t[k + 1..])
  {
    assert t[k..][0] == t[k] && t[k..][1..] == t[k + 1..];
  }
}
