/**
 * The button debouncer of wav-player.py (`WaitForButton`).
 *
 * The trigger button is wired to a pin that is pulled up, so a pressed button
 * reads low.  The raw pin is polled once per millisecond; the poll results are
 * modelled as a sequence of levels, `true` meaning high.  `WaitForButton`
 * keeps a run-length counter of polls that agree with the wanted logical state
 * and returns once that counter reaches `Threshold`.
 */
module Debounce {
  import opened Options

  /** Number of consecutive agreeing polls that make a debounced edge. */
  const Threshold: nat := 100

  /** Whether one raw level of the pulled-up pin agrees with the wanted state. */
  function InDesiredState(pressed: bool, raw: bool): (agrees: bool)
    ensures pressed ==> (agrees <==> !raw)
    ensures !pressed ==> (agrees <==> raw)
  {
    raw != pressed
  }

  /**
   * Reference notion of "debounced": at least `Threshold` polls were taken
   * since `start`, and the last `Threshold` of the polls before `end` all
   * agree with the wanted state.
   */
  predicate Stable(s: seq<bool>, pressed: bool, start: nat, end: nat)
  {
    start + Threshold <= end <= |s| &&
    forall j :: end - Threshold <= j < end ==> InDesiredState(pressed, s[j])
  }

  /**
   * The first poll count, from `from` on, at which the input is stable;
   * `None` if no such point exists within `s`.
   */
  function FirstStableFrom(s: seq<bool>, pressed: bool, start: nat, from: nat): (r: Option<nat>)
    ensures r.Some? ==> from <= r.value && Stable(s, pressed, start, r.value)
    ensures r.Some? ==> forall e :: from <= e < r.value ==> !Stable(s, pressed, start, e)
    ensures r.None? ==> forall e :: from <= e ==> !Stable(s, pressed, start, e)
    decreases |s| - from + 1
  {
    if from > |s| then None
    else if Stable(s, pressed, start, from) then Some(from)
    else FirstStableFrom(s, pressed, start, from + 1)
  }

  /** Where a wait that starts polling at `start` returns: the first stable point. */
  function FirstStable(s: seq<bool>, pressed: bool, start: nat): (r: Option<nat>)
    ensures r.Some? ==> Stable(s, pressed, start, r.value)
    ensures r.Some? ==> forall e :: start <= e < r.value ==> !Stable(s, pressed, start, e)
    ensures r.None? ==> forall e :: start <= e ==> !Stable(s, pressed, start, e)
  {
    FirstStableFrom(s, pressed, start, start)
  }

  /**
   * The value of the counter `Value` after the polls s[start..end], for a
   * wait that had not yet returned.
   */
  function Counter(s: seq<bool>, pressed: bool, start: nat, end: nat): (value: nat)
    requires start <= end <= |s|
    ensures value <= end - start
    decreases end
  {
    if end == start then 0
    else if InDesiredState(pressed, s[end - 1]) then Counter(s, pressed, start, end - 1) + 1
    else 0
  }

  /** The counter is the length of the run of agreeing polls that ends at `end`. */
  lemma {:induction false} CounterIsRunLength(s: seq<bool>, pressed: bool, start: nat, end: nat, k: nat)
    requires start <= end <= |s|
    ensures Counter(s, pressed, start, end) >= k <==>
              (start + k <= end && forall j :: end - k <= j < end ==> InDesiredState(pressed, s[j]))
    decreases end
  {
    if k == 0 || end == start {
    } else if InDesiredState(pressed, s[end - 1]) {
      CounterIsRunLength(s, pressed, start, end - 1, k - 1);
    } else {
      assert !InDesiredState(pressed, s[end - 1]);
    }
  }

  /** The counter reaches the threshold exactly at the stable points. */
  lemma StableIffCounter(s: seq<bool>, pressed: bool, start: nat, end: nat)
    requires start <= end <= |s|
    ensures Stable(s, pressed, start, end) <==> Counter(s, pressed, start, end) >= Threshold
  {
    CounterIsRunLength(s, pressed, start, end, Threshold);
  }

  /**
   * The counter loop of `WaitForButton`: polls `s` from index `start` and
   * returns the index just after the poll that brought the counter to
   * `Threshold`, or `None` when the polls run out first (the program itself
   * would go on polling for ever).
   */
  method WaitForButton(s: seq<bool>, start: nat, pressed: bool) returns (stop: Option<nat>)
    requires start <= |s|
    ensures stop == FirstStable(s, pressed, start)
    ensures stop.Some? ==> Counter(s, pressed, start, stop.value) == Threshold
  {
    var value := 0;
    var i := start;
    while value < Threshold
      invariant start <= i <= |s|
      invariant value == Counter(s, pressed, start, i) && value <= Threshold
      invariant forall e :: start <= e < i ==> !Stable(s, pressed, start, e)
      decreases |s| - i
    {
      StableIffCounter(s, pressed, start, i);
      if i == |s| {
        return None;
      }
      var inDesiredState := InDesiredState(pressed, s[i]);
      if inDesiredState {
        value := value + 1;
      } else {
        value := 0;
      }
      i := i + 1;
    }
    StableIffCounter(s, pressed, start, i);
    stop := Some(i);
  }

  /** While a wait has not returned, its counter stays within 0..Threshold. */
  lemma CounterBounded(s: seq<bool>, pressed: bool, start: nat, end: nat)
    requires start <= end <= |s|
    requires forall e :: start <= e < end ==> !Stable(s, pressed, start, e)
    ensures Counter(s, pressed, start, end) <= Threshold
  {
    if end > start {
      StableIffCounter(s, pressed, start, end - 1);
    }
  }

  /**
   * Even when the button already is in the wanted state, a wait consumes a
   * full window of `Threshold` polls; and it returns right after that window
   * when all of its polls agree.
   */
  lemma CleanWindowReturnsAfterThreshold(s: seq<bool>, pressed: bool, start: nat)
    requires start + Threshold <= |s|
    requires forall j :: start <= j < start + Threshold ==> InDesiredState(pressed, s[j])
    ensures FirstStable(s, pressed, start) == Some(start + Threshold)
  {
    assert Stable(s, pressed, start, start + Threshold);
  }

  /**
   * A single disagreeing poll at index `g` discards all progress: a wait
   * that has not returned by `g` cannot return before another full window of
   * agreeing polls after `g`.
   */
  lemma GlitchDiscardsProgress(s: seq<bool>, pressed: bool, start: nat, g: nat)
    requires start <= g < |s|
    requires !InDesiredState(pressed, s[g])
    ensures forall e :: g < e <= g + Threshold ==> !Stable(s, pressed, start, e)
    ensures FirstStable(s, pressed, start).None? || FirstStable(s, pressed, start).value <= g ||
            FirstStable(s, pressed, start).value > g + Threshold
  {
    forall e | g < e <= g + Threshold
      ensures !Stable(s, pressed, start, e)
    {
      assert e - Threshold <= g < e;
    }
  }

  /**
   * Ninety-nine agreeing polls followed by one disagreeing poll do not make
   * the wait return; it needs a fresh window after the glitch.
   */
  lemma GlitchAtLastPoll(s: seq<bool>, pressed: bool, start: nat)
    requires start + Threshold <= |s|
    requires forall j :: start <= j < start + Threshold - 1 ==> InDesiredState(pressed, s[j])
    requires !InDesiredState(pressed, s[start + Threshold - 1])
    ensures Counter(s, pressed, start, start + Threshold - 1) == Threshold - 1
    ensures Counter(s, pressed, start, start + Threshold) == 0
    ensures FirstStable(s, pressed, start).None? || FirstStable(s, pressed, start).value >= start + 2 * Threshold
  {
    CounterIsRunLength(s, pressed, start, start + Threshold - 1, Threshold - 1);
    GlitchDiscardsProgress(s, pressed, start, start + Threshold - 1);
  }
}
