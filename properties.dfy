/**
 * Properties of the run of wav-player.py as modelled in `Sequencer`.
 */
module SequencerProperties {
  import opened Options
  import opened Debounce
  import opened Playlist
  import opened Events
  import opened Sequencer

  lemma IdleEventsFilters(released: nat)
    ensures Plays(IdleEvents(released)) == []
    ensures Waits(IdleEvents(released)) == [Debounced(false, released)]
    ensures Messages(IdleEvents(released)) == [Idle]
  {
    var t := IdleEvents(released);
    assert t == t[0..];
    StepFilters(t, 0); StepFilters(t, 1); StepFilters(t, 2);
    assert t[3..] == [];
  }

  lemma IdleEventsOutputs(o: Outputs, released: nat)
    ensures Replay(o, IdleEvents(released)) == o.(idle := true)
    ensures NeverBothHigh(o, IdleEvents(released)) <==> !o.playing
  {
    var t := IdleEvents(released);
    assert t == t[0..];
    StepOutputs(t, 0); StepOutputs(t, 1); StepOutputs(t, 2);
    assert t[3..] == [];
  }

  lemma PressEventsFilters(path: string, pressed: nat, ok: bool)
    ensures Plays(PressEvents(path, pressed, ok)) == [Played(path, ok)]
    ensures Waits(PressEvents(path, pressed, ok)) == [Debounced(true, pressed)]
    ensures Messages(PressEvents(path, pressed, ok)) == [Play(path)]
  {
    var t := PressEvents(path, pressed, ok);
    assert t == t[0..];
    StepFilters(t, 0); StepFilters(t, 1); StepFilters(t, 2); StepFilters(t, 3); StepFilters(t, 4);
    assert t[5..] == [];
  }

  lemma PressEventsOutputs(o: Outputs, path: string, pressed: nat, ok: bool)
    ensures Replay(o, PressEvents(path, pressed, ok)) == Outputs(true, false)
    ensures NeverBothHigh(o, PressEvents(path, pressed, ok)) <==> !BothHigh(o)
  {
    var t := PressEvents(path, pressed, ok);
    assert t == t[0..];
    StepOutputs(t, 0); StepOutputs(t, 1); StepOutputs(t, 2); StepOutputs(t, 3); StepOutputs(t, 4);
    assert t[5..] == [];
  }

  lemma FinishEventsEffect(o: Outputs, path: string, ok: bool)
    ensures Plays(FinishEvents(path, ok)) == [] && Waits(FinishEvents(path, ok)) == []
    ensures Messages(FinishEvents(path, ok)) == if ok then [Done(path)] else [PlayerException, PlayerHint]
    ensures Replay(o, FinishEvents(path, ok)) == o.(playing := o.playing && !ok)
    ensures NeverBothHigh(o, FinishEvents(path, ok)) <==> !BothHigh(o)
  {
    var t := FinishEvents(path, ok);
    assert t == t[0..];
    StepFilters(t, 0); StepFilters(t, 1);
    StepOutputs(t, 0); StepOutputs(t, 1);
    assert t[2..] == [];
  }

  lemma PlayEventsFilters(path: string, released: nat, pressed: nat, ok: bool)
    ensures Plays(PlayEvents(path, released, pressed, ok)) == [Played(path, ok)]
    ensures Waits(PlayEvents(path, released, pressed, ok)) == [Debounced(false, released), Debounced(true, pressed)]
    ensures Messages(PlayEvents(path, released, pressed, ok)) ==
              [Idle, Play(path)] + (if ok then [Done(path)] else [PlayerException, PlayerHint])
  {
    var a := IdleEvents(released);
    var b := PressEvents(path, pressed, ok);
    var c := FinishEvents(path, ok);
    IdleEventsFilters(released);
    PressEventsFilters(path, pressed, ok);
    FinishEventsEffect(Undriven, path, ok);
    FiltersAppend(a, b);
    FiltersAppend(a + b, c);
  }

  lemma PlayEventsOutputs(o: Outputs, path: string, released: nat, pressed: nat, ok: bool)
    ensures Replay(o, PlayEvents(path, released, pressed, ok)) == Outputs(!ok, false)
    ensures NeverBothHigh(o, PlayEvents(path, released, pressed, ok)) <==> !o.playing
  {
    var a := IdleEvents(released);
    var b := PressEvents(path, pressed, ok);
    var c := FinishEvents(path, ok);
    IdleEventsOutputs(o, released);
    PressEventsOutputs(o.(idle := true), path, pressed, ok);
    FinishEventsEffect(Outputs(true, false), path, ok);
    ReplayAppend(o, a, b);
    ReplayAppend(o, a + b, c);
    NeverBothHighAppend(o, a, b);
    NeverBothHighAppend(o, a + b, c);
  }

  lemma HeaderEffect(o: Outputs, files: seq<string>, k: nat)
    requires |files| > 0
    ensures Plays(Header(files, k)) == [] && Waits(Header(files, k)) == []
    ensures Messages(Header(files, k)) == if k % |files| == 0 then [StartSequence] else []
    ensures Replay(o, Header(files, k)) == o
    ensures NeverBothHigh(o, Header(files, k)) <==> !BothHigh(o)
  {
    var t := Header(files, k);
    if t != [] {
      assert t == t[0..];
      StepFilters(t, 0);
      StepOutputs(t, 0);
      assert t[1..] == [];
    }
  }

  /** One iteration of the loop, unfolded. */
  lemma LoopStep(files: seq<string>, s: seq<bool>, pos: nat, results: seq<bool>, k: nat)
    requires |files| > 0 && pos <= |s| && k < |results|
    ensures var t := Track(TrackFile(files, k), s, pos, results[k]);
      var l := Loop(files, s, pos, results, k);
      if t.resume.None? then l == Outcome(Header(files, k) + t.events, Blocked)
      else
        var rest := Loop(files, s, t.resume.value, results, k + 1);
        l == Outcome(Header(files, k) + t.events + rest.events, rest.status)
  {
  }

  /** An iteration whose wait blocks ends the loop, with status Blocked. */
  lemma LoopBlockedTrace(before: seq<Event>, after: seq<Event>, files: seq<string>, s: seq<bool>,
                         pos: nat, results: seq<bool>, k: nat)
    requires |files| > 0 && pos <= |s| && k < |results|
    requires Track(TrackFile(files, k), s, pos, results[k]).resume.None?
    requires after == before + Header(files, k) + Track(TrackFile(files, k), s, pos, results[k]).events
    ensures after == before + Loop(files, s, pos, results, k).events
    ensures Loop(files, s, pos, results, k).status == Blocked
  {
    LoopStep(files, s, pos, results, k);
    var t := Track(TrackFile(files, k), s, pos, results[k]);
    assert before + Header(files, k) + t.events == before + (Header(files, k) + t.events);
  }

  /**
   * An iteration that gets both edges: what is left of the loop after it,
   * added to the trace it produced, is what was left before it.
   */
  lemma LoopResumedTrace(before: seq<Event>, after: seq<Event>, files: seq<string>, s: seq<bool>,
                         pos: nat, results: seq<bool>, k: nat, next: nat)
    requires |files| > 0 && pos <= |s| && k < |results|
    requires Track(TrackFile(files, k), s, pos, results[k]).resume == Some(next)
    requires after == before + Header(files, k) + Track(TrackFile(files, k), s, pos, results[k]).events
    ensures after + Loop(files, s, next, results, k + 1).events == before + Loop(files, s, pos, results, k).events
    ensures Loop(files, s, next, results, k + 1).status == Loop(files, s, pos, results, k).status
  {
    LoopStep(files, s, pos, results, k);
    var t := Track(TrackFile(files, k), s, pos, results[k]);
    AppendAssoc(before, Header(files, k), t.events, Loop(files, s, next, results, k + 1).events);
  }

  /** A track that gets both edges calls the player once; one that blocks never does. */
  lemma TrackPlays(path: string, s: seq<bool>, pos: nat, ok: bool)
    requires pos <= |s|
    ensures var t := Track(path, s, pos, ok);
      Plays(t.events) == if t.resume.Some? then [Played(path, ok)] else []
  {
    match FirstStable(s, false, pos)
    case None =>
    case Some(released) =>
      IdleEventsFilters(released);
      match FirstStable(s, true, released)
      case None =>
      case Some(pressed) => PlayEventsFilters(path, released, pressed, ok);
  }

  /**
   * `p` lists player calls for iterations k, k + 1, ... in order: the j-th of
   * them plays TrackFile(files, k + j) with the (k + j)-th result.
   */
  ghost predicate PlayedInOrder(files: seq<string>, results: seq<bool>, k: nat, p: seq<Event>)
    requires |files| > 0
  {
    && |p| <= |results| - k
    && forall j :: 0 <= j < |p| ==> p[j] == Played(TrackFile(files, k + j), results[k + j])
  }

  lemma CyclicShift(files: seq<string>, results: seq<bool>, k: nat, p: seq<Event>, q: seq<Event>)
    requires |files| > 0 && k < |results|
    requires p == [Played(TrackFile(files, k), results[k])] + q
    requires PlayedInOrder(files, results, k + 1, q)
    ensures PlayedInOrder(files, results, k, p)
  {
    forall j | 1 <= j < |p|
      ensures p[j] == Played(TrackFile(files, k + j), results[k + j])
    {
      assert p[j] == q[j - 1];
      assert k + 1 + (j - 1) == k + j;
    }
  }

  /**
   * Cyclic order: the j-th file played from iteration k on is
   * files[(k + j) % n], with the j-th supplied result; the run plays one file
   * per result unless a wait blocks.
   */
  lemma {:induction false} LoopPlays(files: seq<string>, s: seq<bool>, pos: nat, results: seq<bool>, k: nat)
    requires |files| > 0 && pos <= |s| && k <= |results|
    ensures PlayedInOrder(files, results, k, Plays(Loop(files, s, pos, results, k).events))
    ensures Loop(files, s, pos, results, k).status == StillRunning ==>
              |Plays(Loop(files, s, pos, results, k).events)| == |results| - k
    decreases |results| - k
  {
    if k < |results| {
      var path := TrackFile(files, k);
      var h := Header(files, k);
      var t := Track(path, s, pos, results[k]);
      var l := Loop(files, s, pos, results, k);
      var p := Plays(l.events);
      assert Plays(h + t.events) == if t.resume.Some? then [Played(path, results[k])] else [] by {
        HeaderEffect(Undriven, files, k);
        TrackPlays(path, s, pos, results[k]);
        FiltersAppend(h, t.events);
      }
      if t.resume.Some? {
        var rest := Loop(files, s, t.resume.value, results, k + 1);
        var q := Plays(rest.events);
        LoopPlays(files, s, t.resume.value, results, k + 1);
        assert p == [Played(path, results[k])] + q && l.status == rest.status by {
          LoopStep(files, s, pos, results, k);
          FiltersAppend(h + t.events, rest.events);
        }
        CyclicShift(files, results, k, p, q);
      } else {
        assert p == [] && l.status == Blocked by {
          LoopStep(files, s, pos, results, k);
        }
      }
    }
  }

  /** The waits a track makes, and where it resumes. */
  lemma TrackWaits(path: string, s: seq<bool>, pos: nat, ok: bool)
    requires pos <= |s|
    ensures var t := Track(path, s, pos, ok);
      if FirstStable(s, false, pos).None? then Waits(t.events) == [] && t.resume.None?
      else
        var released := FirstStable(s, false, pos).value;
        if FirstStable(s, true, released).None? then
          Waits(t.events) == [Debounced(false, released)] && t.resume.None?
        else
          var pressed := FirstStable(s, true, released).value;
          Waits(t.events) == [Debounced(false, released), Debounced(true, pressed)] && t.resume == Some(pressed)
  {
    match FirstStable(s, false, pos)
    case None =>
    case Some(released) =>
      IdleEventsFilters(released);
      match FirstStable(s, true, released)
      case None =>
      case Some(pressed) => PlayEventsFilters(path, released, pressed, ok);
  }

  /** What a track does to the outputs. */
  lemma TrackOutputs(o: Outputs, path: string, s: seq<bool>, pos: nat, ok: bool)
    requires pos <= |s|
    ensures var t := Track(path, s, pos, ok);
      && (t.events == [] ==> Replay(o, t.events) == o)
      && (t.events != [] ==> (NeverBothHigh(o, t.events) <==> !o.playing))
      && (t.resume.None? ==> !Replay(o, t.events).playing || o.playing)
      && (t.resume.Some? ==> Replay(o, t.events) == Outputs(!ok, false))
  {
    match FirstStable(s, false, pos)
    case None =>
    case Some(released) =>
      IdleEventsOutputs(o, released);
      match FirstStable(s, true, released)
      case None =>
      case Some(pressed) => PlayEventsOutputs(o, path, released, pressed, ok);
  }

  /** The lines a loop iteration logs. */
  predicate LoopMessage(m: Message)
  {
    m.StartSequence? || m.Idle? || m.Play? || m.Done? || m.PlayerException? || m.PlayerHint?
  }

  predicate OnlyLoopMessages(m: seq<Message>)
  {
    forall i :: 0 <= i < |m| ==> LoopMessage(m[i])
  }

  lemma TrackMessages(path: string, s: seq<bool>, pos: nat, ok: bool)
    requires pos <= |s|
    ensures OnlyLoopMessages(Messages(Track(path, s, pos, ok).events))
  {
    match FirstStable(s, false, pos)
    case None =>
    case Some(released) =>
      IdleEventsFilters(released);
      match FirstStable(s, true, released)
      case None =>
      case Some(pressed) => PlayEventsFilters(path, released, pressed, ok);
  }

  /**
   * The waits of a trace from `pos` on: alternately for a release and a
   * press, each returning at the first stable point after the previous one.
   */
  ghost predicate ChainFrom(w: seq<Event>, s: seq<bool>, pos: nat, pressed: bool)
    decreases |w|
  {
    w == [] ||
    (&& w[0].Debounced?
     && w[0].pressed == pressed
     && FirstStable(s, pressed, pos) == Some(w[0].next)
     && ChainFrom(w[1..], s, w[0].next, !pressed))
  }

  /**
   * The waits of the loop from iteration k on: a chain from `pos`, and when
   * the run blocks, the wait after the last one never stabilises.
   */
  lemma {:induction false} LoopWaits(files: seq<string>, s: seq<bool>, pos: nat, results: seq<bool>, k: nat)
    requires |files| > 0 && pos <= |s| && k <= |results|
    ensures var w := Waits(Loop(files, s, pos, results, k).events);
      && ChainFrom(w, s, pos, false)
      && (Loop(files, s, pos, results, k).status == Blocked ==>
            FirstStable(s, |w| % 2 == 1, ChainEnd(w, pos)).None?)
    decreases |results| - k
  {
    if k < |results| {
      var path := TrackFile(files, k);
      var h := Header(files, k);
      var t := Track(path, s, pos, results[k]);
      var l := Loop(files, s, pos, results, k);
      var w := Waits(l.events);
      var tw := Waits(t.events);
      assert Waits(h + t.events) == tw by {
        HeaderEffect(Undriven, files, k);
        WaitsAppend(h, t.events);
      }
      TrackWaits(path, s, pos, results[k]);
      LoopStep(files, s, pos, results, k);
      if t.resume.Some? {
        var rest := Loop(files, s, t.resume.value, results, k + 1);
        var rw := Waits(rest.events);
        assert l.events == (h + t.events) + rest.events && l.status == rest.status;
        LoopWaits(files, s, t.resume.value, results, k + 1);
        assert w == tw + rw by {
          WaitsAppend(h + t.events, rest.events);
        }
        ChainPrepend(s, pos, tw, rw);
      }
    }
  }

  /** A track's two waits followed by a chain from where they stopped form a chain. */
  lemma ChainPrepend(s: seq<bool>, pos: nat, tw: seq<Event>, rw: seq<Event>)
    requires |tw| == 2 && tw[0].Debounced? && tw[1].Debounced?
    requires !tw[0].pressed && tw[1].pressed
    requires FirstStable(s, false, pos) == Some(tw[0].next)
    requires FirstStable(s, true, tw[0].next) == Some(tw[1].next)
    requires forall i :: 0 <= i < |rw| ==> rw[i].Debounced?
    requires ChainFrom(rw, s, tw[1].next, false)
    ensures ChainFrom(tw + rw, s, pos, false)
    ensures (|tw + rw| % 2 == 1) == (|rw| % 2 == 1)
    ensures ChainEnd(tw + rw, pos) == ChainEnd(rw, tw[1].next)
  {
    var w := tw + rw;
    assert w[1..][1..] == rw;
    if rw != [] {
      assert w[|w| - 1] == rw[|rw| - 1];
    }
  }

  /**
   * A call of the player at index i of a trace sits in the event order of
   * lines 83-99: a debounced release, IDLE logged, Idle raised, a debounced
   * press, Idle dropped, PLAY logged, Playing raised, the player run; then on
   * success Playing dropped and DONE logged, on an exception the error lines.
   */
  ghost predicate Framed(t: seq<Event>, i: nat)
    requires i < |t| && t[i].Played?
  {
    && 7 <= i && i + 2 < |t|
    && t[i - 7].Debounced? && !t[i - 7].pressed
    && t[i - 6] == Logged(Idle)
    && t[i - 5] == Wrote(GpioOutputIdle, true)
    && t[i - 4].Debounced? && t[i - 4].pressed
    && t[i - 3] == Wrote(GpioOutputIdle, false)
    && t[i - 2] == Logged(Play(t[i].path))
    && t[i - 1] == Wrote(GpioOutputPlaying, true)
    && (if t[i].ok then t[i + 1] == Wrote(GpioOutputPlaying, false) && t[i + 2] == Logged(Done(t[i].path))
        else t[i + 1] == Logged(PlayerException) && t[i + 2] == Logged(PlayerHint))
  }

  ghost predicate AllFramed(t: seq<Event>)
  {
    forall i :: 0 <= i < |t| && t[i].Played? ==> Framed(t, i)
  }

  lemma AllFramedAppend(a: seq<Event>, b: seq<Event>)
    requires AllFramed(a) && AllFramed(b)
    ensures AllFramed(a + b)
  {
    var ab := a + b;
    forall i | 0 <= i < |ab| && ab[i].Played?
      ensures Framed(ab, i)
    {
      if i < |a| {
        assert a[i] == ab[i] && Framed(a, i);
      } else {
        var j := i - |a|;
        assert b[j] == ab[i] && Framed(b, j);
      }
    }
  }

  lemma TrackFramed(path: string, s: seq<bool>, pos: nat, ok: bool)
    requires pos <= |s|
    ensures AllFramed(Track(path, s, pos, ok).events)
  {
  }

  lemma {:induction false} LoopFramed(files: seq<string>, s: seq<bool>, pos: nat, results: seq<bool>, k: nat)
    requires |files| > 0 && pos <= |s| && k <= |results|
    ensures AllFramed(Loop(files, s, pos, results, k).events)
    decreases |results| - k
  {
    if k < |results| {
      var h := Header(files, k);
      var t := Track(TrackFile(files, k), s, pos, results[k]);
      TrackFramed(TrackFile(files, k), s, pos, results[k]);
      assert AllFramed(h);
      AllFramedAppend(h, t.events);
      LoopStep(files, s, pos, results, k);
      if t.resume.Some? {
        LoopFramed(files, s, t.resume.value, results, k + 1);
        AllFramedAppend(h + t.events, Loop(files, s, t.resume.value, results, k + 1).events);
      }
    }
  }

  /** Only loop lines are logged inside the loop: in particular never EXIT. */
  lemma {:induction false} LoopMessages(files: seq<string>, s: seq<bool>, pos: nat, results: seq<bool>, k: nat)
    requires |files| > 0 && pos <= |s| && k <= |results|
    ensures OnlyLoopMessages(Messages(Loop(files, s, pos, results, k).events))
    decreases |results| - k
  {
    if k < |results| {
      var h := Header(files, k);
      var t := Track(TrackFile(files, k), s, pos, results[k]);
      var l := Loop(files, s, pos, results, k);
      assert OnlyLoopMessages(Messages(h + t.events)) by {
        HeaderEffect(Undriven, files, k);
        TrackMessages(TrackFile(files, k), s, pos, results[k]);
        FiltersAppend(h, t.events);
      }
      LoopStep(files, s, pos, results, k);
      if t.resume.Some? {
        var rest := Loop(files, s, t.resume.value, results, k + 1);
        assert l.events == (h + t.events) + rest.events;
        LoopMessages(files, s, t.resume.value, results, k + 1);
        FiltersAppend(h + t.events, rest.events);
      }
    }
  }

  /**
   * While every playback succeeds, the outputs are never both high, provided
   * the loop is entered with Playing low.
   */
  lemma {:induction false} LoopExclusive(o: Outputs, files: seq<string>, s: seq<bool>, pos: nat, results: seq<bool>, k: nat)
    requires |files| > 0 && pos <= |s| && k <= |results|
    requires !o.playing
    requires forall j :: k <= j < |results| ==> results[j]
    ensures NeverBothHigh(o, Loop(files, s, pos, results, k).events)
    decreases |results| - k
  {
    if k == |results| {
      assert Loop(files, s, pos, results, k).events == [];
    } else {
      var h := Header(files, k);
      var t := Track(TrackFile(files, k), s, pos, results[k]);
      var l := Loop(files, s, pos, results, k);
      assert NeverBothHigh(o, h + t.events) by {
        HeaderEffect(o, files, k);
        TrackOutputs(o, TrackFile(files, k), s, pos, results[k]);
        NeverBothHighAppend(o, h, t.events);
      }
      LoopStep(files, s, pos, results, k);
      if t.resume.Some? {
        var rest := Loop(files, s, t.resume.value, results, k + 1);
        assert l.events == (h + t.events) + rest.events;
        assert Replay(o, h + t.events) == Outputs(false, false) by {
          HeaderEffect(o, files, k);
          TrackOutputs(o, TrackFile(files, k), s, pos, results[k]);
          ReplayAppend(o, h, t.events);
        }
        LoopExclusive(Outputs(false, false), files, s, t.resume.value, results, k + 1);
        NeverBothHighAppend(o, h + t.events, rest.events);
      }
    }
  }

  /**
   * A playback that raises leaves Playing high (line 95 is skipped), so as
   * soon as the next iteration raises Idle both outputs are high.
   */
  lemma FailureThenIdleBothHigh(o: Outputs, files: seq<string>, s: seq<bool>, pos: nat, results: seq<bool>, k: nat)
    requires |files| > 0 && pos <= |s| && k + 1 < |results|
    requires !results[k]
    requires Track(TrackFile(files, k), s, pos, results[k]).resume.Some?
    requires FirstStable(s, false, Track(TrackFile(files, k), s, pos, results[k]).resume.value).Some?
    ensures !NeverBothHigh(o, Loop(files, s, pos, results, k).events)
  {
    var h := Header(files, k);
    var t := Track(TrackFile(files, k), s, pos, results[k]);
    var next := t.resume.value;
    var rest := Loop(files, s, next, results, k + 1);
    LoopStep(files, s, pos, results, k);
    assert Loop(files, s, pos, results, k).events == (h + t.events) + rest.events;
    assert Replay(o, h + t.events) == Outputs(true, false) by {
      HeaderEffect(o, files, k);
      TrackOutputs(o, TrackFile(files, k), s, pos, results[k]);
      ReplayAppend(o, h, t.events);
    }
    var o' := Outputs(true, false);
    var h' := Header(files, k + 1);
    var t' := Track(TrackFile(files, k + 1), s, next, results[k + 1]);
    LoopStep(files, s, next, results, k + 1);
    assert t'.events != [];
    assert !NeverBothHigh(o', h' + t'.events) by {
      HeaderEffect(o', files, k + 1);
      TrackOutputs(o', TrackFile(files, k + 1), s, next, results[k + 1]);
      NeverBothHighAppend(o', h', t'.events);
    }
    if t'.resume.Some? {
      var rest' := Loop(files, s, t'.resume.value, results, k + 2);
      assert rest.events == (h' + t'.events) + rest'.events;
      NeverBothHighAppend(o', h' + t'.events, rest'.events);
    } else {
      assert rest.events == h' + t'.events;
    }
    NeverBothHighAppend(o, h + t.events, rest.events);
  }

  /** Lines 70-71 and 106-108: Playing low, then Idle high, then a log line. */
  lemma ResetEffect(o: Outputs, m: Message)
    ensures var t := [Wrote(GpioOutputPlaying, false), Wrote(GpioOutputIdle, true), Logged(m)];
      && Plays(t) == [] && Waits(t) == [] && Messages(t) == [m]
      && Replay(o, t) == Outputs(false, true)
      && (NeverBothHigh(o, t) <==> !BothHigh(o))
  {
    var t := [Wrote(GpioOutputPlaying, false), Wrote(GpioOutputIdle, true), Logged(m)];
    assert t == t[0..];
    StepFilters(t, 0); StepFilters(t, 1); StepFilters(t, 2);
    StepOutputs(t, 0); StepOutputs(t, 1); StepOutputs(t, 2);
    assert t[3..] == [];
  }

  lemma SingleEffect(o: Outputs, m: Message)
    ensures Plays([Logged(m)]) == [] && Waits([Logged(m)]) == [] && Messages([Logged(m)]) == [m]
    ensures Replay(o, [Logged(m)]) == o && (NeverBothHigh(o, [Logged(m)]) <==> !BothHigh(o))
  {
  }

  /**
   * With no matching file the program logs START, ERROR 2 and EXIT, never
   * raises Playing or calls the player, and ends with Playing low and Idle high.
   */
  lemma EmptyPlaylist(s: seq<bool>, results: seq<bool>)
    ensures var r := Main([], s, results);
      && r.status == Exited
      && Messages(r.events) == [Start(ProgramName, Version), NoFiles(WavPattern), Exit]
      && Plays(r.events) == [] && Waits(r.events) == []
      && Wrote(GpioOutputPlaying, true) !in r.events
      && Replay(Undriven, r.events) == Outputs(false, true)
      && NeverBothHigh(Undriven, r.events)
  {
    var r := Main([], s, results);
    assert r.events == Startup + [Logged(NoFiles(WavPattern))] + Shutdown;
    NoFilesLog(r.events);
    NoFilesOutputs(r.events);
  }

  /** The log of lines 70-71, 100-101 and 106-108 run one after the other. */
  lemma NoFilesLog(t: seq<Event>)
    requires t == Startup + [Logged(NoFiles(WavPattern))] + Shutdown
    ensures Messages(t) == [Start(ProgramName, Version), NoFiles(WavPattern), Exit]
    ensures Plays(t) == [] && Waits(t) == []
    ensures Wrote(GpioOutputPlaying, true) !in t
  {
    var b := [Logged(NoFiles(WavPattern))];
    assert Wrote(GpioOutputPlaying, true) !in t by {
      assert Wrote(GpioOutputPlaying, true) !in Startup && Wrote(GpioOutputPlaying, true) !in b;
      assert Wrote(GpioOutputPlaying, true) !in Shutdown;
    }
    assert Plays(t) == Plays(Startup) + Plays(b) + Plays(Shutdown) by {
      PlaysAppend(Startup, b);
      PlaysAppend(Startup + b, Shutdown);
    }
    assert Waits(t) == Waits(Startup) + Waits(b) + Waits(Shutdown) by {
      WaitsAppend(Startup, b);
      WaitsAppend(Startup + b, Shutdown);
    }
    assert Messages(t) == Messages(Startup) + Messages(b) + Messages(Shutdown) by {
      MessagesAppend(Startup, b);
      MessagesAppend(Startup + b, Shutdown);
    }
    ResetEffect(Undriven, Start(ProgramName, Version));
    SingleEffect(Undriven, NoFiles(WavPattern));
    ResetEffect(Undriven, Exit);
  }

  /** The output levels of lines 70-71, 100-101 and 106-108 run one after the other. */
  lemma NoFilesOutputs(t: seq<Event>)
    requires t == Startup + [Logged(NoFiles(WavPattern))] + Shutdown
    ensures Replay(Undriven, t) == Outputs(false, true)
    ensures NeverBothHigh(Undriven, t)
  {
    var b := [Logged(NoFiles(WavPattern))];
    ResetEffect(Undriven, Start(ProgramName, Version));
    SingleEffect(Outputs(false, true), NoFiles(WavPattern));
    ResetEffect(Outputs(false, true), Exit);
    ReplayAppend(Undriven, Startup, b);
    ReplayAppend(Undriven, Startup + b, Shutdown);
    NeverBothHighAppend(Undriven, Startup, b);
    NeverBothHighAppend(Undriven, Startup + b, Shutdown);
  }

  /** Startup of a non-empty playlist: the prefix every such run shares. */
  lemma LoopPrefix(n: nat)
    ensures var t := Startup + [Logged(ReadFiles(n, WavPattern))];
      && Plays(t) == [] && Waits(t) == []
      && Messages(t) == [Start(ProgramName, Version), ReadFiles(n, WavPattern)]
      && Replay(Undriven, t) == Outputs(false, true)
      && NeverBothHigh(Undriven, t)
  {
    var a := Startup;
    var b := [Logged(ReadFiles(n, WavPattern))];
    ResetEffect(Undriven, Start(ProgramName, Version));
    SingleEffect(Outputs(false, true), ReadFiles(n, WavPattern));
    FiltersAppend(a, b);
    ReplayAppend(Undriven, a, b);
    NeverBothHighAppend(Undriven, a, b);
  }

  /**
   * With files, the program logs START and READ with the number of files,
   * then only loop lines: it never reaches EXIT or ERROR 2.
   */
  lemma NonEmptyPlaylist(globbed: seq<string>, s: seq<bool>, results: seq<bool>)
    requires globbed != []
    ensures var r := Main(globbed, s, results);
      var m := Messages(r.events);
      && r.status != Exited
      && |m| >= 2 && m[..2] == [Start(ProgramName, Version), ReadFiles(|globbed|, WavPattern)]
      && (forall i :: 2 <= i < |m| ==> LoopMessage(m[i]))
      && Exit !in m
  {
    var files := Sort(globbed);
    assert |files| == |multiset(files)| == |globbed|;
    var pre := Startup + [Logged(ReadFiles(|files|, WavPattern))];
    var l := Loop(files, s, 0, results, 0);
    var m := Messages(Main(globbed, s, results).events);
    var lm := Messages(l.events);
    assert m == [Start(ProgramName, Version), ReadFiles(|globbed|, WavPattern)] + lm by {
      LoopPrefix(|files|);
      FiltersAppend(pre, l.events);
    }
    assert OnlyLoopMessages(lm) by {
      LoopMessages(files, s, 0, results, 0);
    }
    forall i | 2 <= i < |m|
      ensures LoopMessage(m[i])
    {
      assert m[i] == lm[i - 2];
    }
    assert m[..2] == [Start(ProgramName, Version), ReadFiles(|globbed|, WavPattern)];
    assert !LoopMessage(Exit) && m[0] != Exit && m[1] != Exit;
  }

  /**
   * The j-th file the program plays is the sorted playlist's entry j mod n,
   * played with the j-th result: the walk wraps from the last file back to
   * the first.
   */
  lemma CyclicOrder(globbed: seq<string>, s: seq<bool>, results: seq<bool>)
    requires globbed != []
    ensures var r := Main(globbed, s, results);
      var p := Plays(r.events);
      var files := Sort(globbed);
      && |files| == |globbed|
      && |p| <= |results|
      && (forall j :: 0 <= j < |p| ==> p[j] == Played(files[j % |files|], results[j]))
      && (r.status == StillRunning ==> |p| == |results|)
  {
    var files := Sort(globbed);
    assert |files| == |multiset(files)| == |globbed|;
    var pre := Startup + [Logged(ReadFiles(|files|, WavPattern))];
    var l := Loop(files, s, 0, results, 0);
    LoopPrefix(|files|);
    LoopPlays(files, s, 0, results, 0);
    FiltersAppend(pre, l.events);
    assert Plays(Main(globbed, s, results).events) == Plays(l.events);
  }

  /** After the last file the next one played is the first one again. */
  lemma WrapsAround(globbed: seq<string>, s: seq<bool>, results: seq<bool>)
    requires globbed != []
    ensures var p := Plays(Main(globbed, s, results).events);
      |p| > |globbed| ==> p[|globbed|].path == p[0].path == Sort(globbed)[0]
  {
    CyclicOrder(globbed, s, results);
  }

  /**
   * Every wait of the program returns at the first stable point after the
   * previous wait, alternating release and press; when the run blocks, the
   * pending wait has no stable point in the input.
   */
  lemma WaitsChain(globbed: seq<string>, s: seq<bool>, results: seq<bool>)
    ensures var r := Main(globbed, s, results);
      var w := Waits(r.events);
      && ChainFrom(w, s, 0, false)
      && (r.status == Blocked ==> FirstStable(s, |w| % 2 == 1, ChainEnd(w, 0)).None?)
  {
    if globbed == [] {
      EmptyPlaylist(s, results);
    } else {
      var files := Sort(globbed);
      assert |files| == |multiset(files)| == |globbed|;
      var pre := Startup + [Logged(ReadFiles(|files|, WavPattern))];
      var l := Loop(files, s, 0, results, 0);
      LoopPrefix(|files|);
      LoopWaits(files, s, 0, results, 0);
      FiltersAppend(pre, l.events);
      assert Waits(Main(globbed, s, results).events) == Waits(l.events);
    }
  }

  /** Every call of the player in a run sits in the event order of lines 83-99. */
  lemma PlaybackFramed(globbed: seq<string>, s: seq<bool>, results: seq<bool>)
    ensures AllFramed(Main(globbed, s, results).events)
  {
    if globbed != [] {
      var files := Sort(globbed);
      assert |files| == |multiset(files)| == |globbed|;
      var pre := Startup + [Logged(ReadFiles(|files|, WavPattern))];
      LoopFramed(files, s, 0, results, 0);
      assert AllFramed(pre);
      AllFramedAppend(pre, Loop(files, s, 0, results, 0).events);
    }
  }

  /**
   * While every playback succeeds, the two outputs are never high together:
   * Idle is raised only while Playing is low.
   */
  lemma ExclusiveWhileAllSucceed(globbed: seq<string>, s: seq<bool>, results: seq<bool>)
    requires forall j :: 0 <= j < |results| ==> results[j]
    ensures NeverBothHigh(Undriven, Main(globbed, s, results).events)
  {
    if globbed == [] {
      EmptyPlaylist(s, results);
    } else {
      var files := Sort(globbed);
      assert |files| == |multiset(files)| == |globbed|;
      var pre := Startup + [Logged(ReadFiles(|files|, WavPattern))];
      LoopPrefix(|files|);
      LoopExclusive(Outputs(false, true), files, s, 0, results, 0);
      NeverBothHighAppend(Undriven, pre, Loop(files, s, 0, results, 0).events);
    }
  }

  /**
   * A concrete run showing the exception path: one file, button released for
   * 100 polls, pressed for 100, released for 100; the first playback raises.
   * The second iteration raises Idle while Playing is still high.
   */
  lemma FailureLeavesBothHigh()
    ensures var s := seq(3 * Threshold, i => !(Threshold <= i < 2 * Threshold));
      !NeverBothHigh(Undriven, Main(["show1.wav"], s, [false, true]).events)
  {
    var s := seq(3 * Threshold, i => !(Threshold <= i < 2 * Threshold));
    var globbed := ["show1.wav"];
    var files := Sort(globbed);
    assert |files| == |multiset(files)| == 1;
    var results := [false, true];
    CleanWindowReturnsAfterThreshold(s, false, 0);
    CleanWindowReturnsAfterThreshold(s, true, Threshold);
    CleanWindowReturnsAfterThreshold(s, false, 2 * Threshold);
    assert Track(TrackFile(files, 0), s, 0, false).resume == Some(2 * Threshold);
    var pre := Startup + [Logged(ReadFiles(|files|, WavPattern))];
    LoopPrefix(|files|);
    FailureThenIdleBothHigh(Replay(Undriven, pre), files, s, 0, results, 0);
    NeverBothHighAppend(Undriven, pre, Loop(files, s, 0, results, 0).events);
  }
}
