/**
 * The cooking-step checklist (components/step-checklist.tsx): one state record per
 * step id, the once-a-second timer tick, the buttons' updaters and the clock
 * display. The state is a dictionary from step id to record; the interval and the
 * re-render are left to the caller, which calls `Tick` once per second.
 */
module StepChecklist {
  import opened Wrappers
  import opened RecipeData

  /** `timeRemaining` is in seconds. */
  datatype StepState = StepState(completed: bool, timerActive: bool, timeRemaining: int)

  /** `(step.duration || 0) * 60`: a step without a duration has no time. */
  function DurationSeconds(step: Step): int {
    step.duration.GetOr(0) * 60
  }

  /** The record a step starts with. */
  function Fresh(step: Step): StepState {
    StepState(false, false, DurationSeconds(step))
  }

  /** The initial dictionary: every step id maps to a fresh record; for a repeated id the last
      step with it wins. */
  function InitialStates(steps: seq<Step>): map<string, StepState> {
    if steps == [] then map[]
    else
      var last := steps[|steps| - 1];
      InitialStates(steps[..|steps| - 1])[last.id := Fresh(last)]
  }

  /** Every step has a record, and every record is a fresh one of a step with its id: not
      completed, timer stopped, the step's full duration left. */
  lemma {:induction false} InitialStatesShape(steps: seq<Step>)
    ensures InitialStates(steps).Keys == set s | s in steps :: s.id
    ensures forall k :: k in InitialStates(steps) ==>
      exists s :: s in steps && s.id == k && InitialStates(steps)[k] == Fresh(s)
  {
    if steps != [] {
      var prefix, last := steps[..|steps| - 1], steps[|steps| - 1];
      assert steps == prefix + [last];
      InitialStatesShape(prefix);
      assert forall s :: s in prefix ==> s in steps;
    }
  }

  /** With distinct step ids, step `i` starts with `(duration || 0) * 60` seconds. */
  lemma {:induction false} InitialStatesDistinct(steps: seq<Step>)
    requires forall i, j :: 0 <= i < j < |steps| ==> steps[i].id != steps[j].id
    ensures forall i :: 0 <= i < |steps| ==>
      (steps[i].id in InitialStates(steps) &&
       InitialStates(steps)[steps[i].id] == StepState(false, false, DurationSeconds(steps[i])))
  {
    if steps != [] {
      var n := |steps| - 1;
      var prefix := steps[..n];
      InitialStatesDistinct(prefix);
      forall i | 0 <= i < |steps|
        ensures steps[i].id in InitialStates(steps) &&
          InitialStates(steps)[steps[i].id] == StepState(false, false, DurationSeconds(steps[i]))
      {
        if i < n {
          assert prefix[i] == steps[i];
          assert steps[i].id != steps[n].id;
        }
      }
    }
  }

  /** The `useState` initialiser: a loop over the steps filling the dictionary. */
  method InitialStepStates(steps: seq<Step>) returns (states: map<string, StepState>)
    ensures states == InitialStates(steps)
  {
    states := map[];
    var i := 0;
    while i < |steps|
      invariant 0 <= i <= |steps|
      invariant states == InitialStates(steps[..i])
    {
      var step := steps[i];
      assert steps[..i + 1][..i] == steps[..i];
      states := states[step.id := StepState(false, false, step.duration.GetOr(0) * 60)];
      i := i + 1;
    }
    assert steps[..i] == steps;
  }

  // ---------------------------------------------------------------------------
  // The tick.

  /** A step whose timer runs: active with time left. */
  predicate Running(s: StepState) {
    s.timerActive && s.timeRemaining > 0
  }

  /** What one tick does to one record: a running timer loses a second, and when it reaches 0
      the timer stops and the step is completed; any other record is unchanged. */
  function TickOne(s: StepState): (r: StepState)
    ensures !Running(s) ==> r == s
    ensures Running(s) ==> r.timeRemaining == s.timeRemaining - 1 >= 0
    ensures Running(s) && r.timeRemaining > 0 ==> r.timerActive && r.completed == s.completed
    ensures Running(s) && r.timeRemaining == 0 ==> !r.timerActive && r.completed
  {
    if Running(s) then
      var t := s.timeRemaining - 1;
      if t == 0 then StepState(true, false, t) else s.(timeRemaining := t)
    else s
  }

  /** The dictionary after a tick. */
  function TickAll(states: map<string, StepState>): (r: map<string, StepState>)
    ensures r.Keys == states.Keys
    ensures forall k :: k in states ==> r[k] == TickOne(states[k])
  {
    map k | k in states :: TickOne(states[k])
  }

  predicate AnyRunning(states: map<string, StepState>) {
    exists k :: k in states && Running(states[k])
  }

  /** A tick with no running timer changes nothing. */
  lemma IdleTickIsIdentity(states: map<string, StepState>)
    requires !AnyRunning(states)
    ensures TickAll(states) == states
  {
  }

  /** The updater passed to `setStepStates` every second: each key is visited, and running
      timers are advanced. `hasActiveTimer` tells whether any was running; when none was,
      the previous dictionary itself is returned. */
  method Tick(prev: map<string, StepState>) returns (next: map<string, StepState>, hasActiveTimer: bool)
    ensures hasActiveTimer <==> AnyRunning(prev)
    ensures next == TickAll(prev)
    ensures !hasActiveTimer ==> next == prev
  {
    var updated := prev;
    hasActiveTimer := false;
    var todo := prev.Keys;
    while todo != {}
      invariant todo <= prev.Keys && updated.Keys == prev.Keys
      invariant forall k :: k in prev ==> updated[k] == if k in todo then prev[k] else TickOne(prev[k])
      invariant hasActiveTimer <==> exists k :: k in prev && k !in todo && Running(prev[k])
      decreases |todo|
    {
      var stepId :| stepId in todo;
      if updated[stepId].timerActive && updated[stepId].timeRemaining > 0 {
        updated := updated[stepId := updated[stepId].(timeRemaining := updated[stepId].timeRemaining - 1)];
        hasActiveTimer := true;
        if updated[stepId].timeRemaining == 0 {
          updated := updated[stepId := updated[stepId].(timerActive := false)];
          updated := updated[stepId := updated[stepId].(completed := true)];
        }
      }
      todo := todo - {stepId};
    }
    assert updated == TickAll(prev);
    if hasActiveTimer {
      next := updated;
    } else {
      IdleTickIsIdentity(prev);
      next := prev;
    }
  }

  /** Time never goes negative: a tick keeps every `timeRemaining` non-negative. */
  lemma TickKeepsTimeNonNegative(states: map<string, StepState>)
    requires forall k :: k in states ==> states[k].timeRemaining >= 0
    ensures forall k :: k in TickAll(states) ==> TickAll(states)[k].timeRemaining >= 0
  {
  }

  /** `n` ticks of one record. */
  function TickN(s: StepState, n: nat): StepState {
    if n == 0 then s else TickOne(TickN(s, n - 1))
  }

  /** A running timer with `t` seconds left counts down one second per tick and, after exactly
      `t` ticks, has stopped with the step completed; further ticks change nothing. */
  lemma {:induction false} CountDown(s: StepState, n: nat)
    requires Running(s)
    ensures n < s.timeRemaining ==> TickN(s, n) == s.(timeRemaining := s.timeRemaining - n)
    ensures n >= s.timeRemaining ==> TickN(s, n) == StepState(true, false, 0)
  {
    if n > 0 {
      CountDown(s, n - 1);
    }
  }

  // ---------------------------------------------------------------------------
  // The buttons.

  /** `toggleStepCompletion(stepId)`: flips `completed` and stops the timer, keeping the time;
      every other step is unchanged. Dereferencing a missing id throws, which is `None`. */
  function ToggleStepCompletion(states: map<string, StepState>, stepId: string): (r: Option<map<string, StepState>>)
    ensures r.None? <==> stepId !in states
    ensures r.Some? ==> r.value.Keys == states.Keys
    ensures r.Some? ==> forall k :: k in states && k != stepId ==> r.value[k] == states[k]
    ensures r.Some? ==> r.value[stepId].completed == !states[stepId].completed
    ensures r.Some? ==> !r.value[stepId].timerActive
    ensures r.Some? ==> r.value[stepId].timeRemaining == states[stepId].timeRemaining
  {
    if stepId !in states then None
    else
      var s := states[stepId];
      Some(states[stepId := s.(completed := !s.completed, timerActive := false)])
  }

  /** `toggleTimer(stepId)`: flips `timerActive` and nothing else; a missing id throws. */
  function ToggleTimer(states: map<string, StepState>, stepId: string): (r: Option<map<string, StepState>>)
    ensures r.None? <==> stepId !in states
    ensures r.Some? ==> r.value.Keys == states.Keys
    ensures r.Some? ==> forall k :: k in states && k != stepId ==> r.value[k] == states[k]
    ensures r.Some? ==> r.value[stepId].timerActive == !states[stepId].timerActive
    ensures r.Some? ==> r.value[stepId].(timerActive := states[stepId].timerActive) == states[stepId]
  {
    if stepId !in states then None
    else
      var s := states[stepId];
      Some(states[stepId := s.(timerActive := !s.timerActive)])
  }

  /** Pressing the timer button twice restores the dictionary. */
  lemma ToggleTimerTwice(states: map<string, StepState>, stepId: string)
    requires stepId in states
    ensures ToggleTimer(ToggleTimer(states, stepId).value, stepId) == Some(states)
  {
    var r := ToggleTimer(ToggleTimer(states, stepId).value, stepId).value;
    assert r.Keys == states.Keys;
    assert forall k :: k in states ==> r[k] == states[k];
    assert r == states;
  }

  /** Marking a step done twice restores `completed` and the time, with the timer stopped. */
  lemma ToggleCompletionTwice(states: map<string, StepState>, stepId: string)
    requires stepId in states
    ensures var r := ToggleStepCompletion(ToggleStepCompletion(states, stepId).value, stepId).value;
      r == states[stepId := states[stepId].(timerActive := false)]
  {
    var r := ToggleStepCompletion(ToggleStepCompletion(states, stepId).value, stepId).value;
    assert r.Keys == states[stepId := states[stepId].(timerActive := false)].Keys;
  }

  /** `resetTimer(stepId, duration)`: stops the timer and sets the time to `duration * 60`,
      keeping `completed`. The record is written even for an id not yet present; its
      `completed` is then `undefined`, which every reader of it treats as `false`. */
  function ResetTimer(states: map<string, StepState>, stepId: string, duration: int): (r: map<string, StepState>)
    ensures r.Keys == states.Keys + {stepId}
    ensures forall k :: k in states && k != stepId ==> r[k] == states[k]
    ensures !r[stepId].timerActive && r[stepId].timeRemaining == duration * 60
    ensures r[stepId].completed == (stepId in states && states[stepId].completed)
  {
    var completed := if stepId in states then states[stepId].completed else false;
    states[stepId := StepState(completed, false, duration * 60)]
  }

  /** After a reset the step's timer does not run, so the next tick leaves it alone. */
  lemma ResetThenTick(states: map<string, StepState>, stepId: string, duration: int)
    ensures TickAll(ResetTimer(states, stepId, duration))[stepId] == ResetTimer(states, stepId, duration)[stepId]
  {
  }

  // ---------------------------------------------------------------------------
  // `formatTime`.

  /** The decimal digits of `n`, without leading zeros (`n.toString()`). */
  function NatToString(n: nat): (s: string)
    ensures |s| > 0 && forall i :: 0 <= i < |s| ==> '0' <= s[i] <= '9'
  {
    var d := ['0' + (n % 10) as char];
    if n < 10 then d else NatToString(n / 10) + d
  }

  /** `n.toString()` for an integer. */
  function IntToString(n: int): string {
    if n < 0 then "-" + NatToString(-n) else NatToString(n)
  }

  /** `s.padStart(2, "0")`. */
  function PadStart2(s: string): (r: string)
    ensures |s| < 2 ==> |r| == 2 && r[2 - |s|..] == s
    ensures |s| >= 2 ==> r == s
  {
    if |s| == 0 then "00" else if |s| == 1 then "0" + s else s
  }

  /** JavaScript's `%`, whose result has the sign of the dividend. */
  function JsRem(a: int, b: int): (r: int)
    requires b > 0
    ensures a >= 0 ==> r == a % b
    ensures -b < r < b
  {
    if a >= 0 then a % b else -((-a) % b)
  }

  /** `formatTime(seconds)`: `Math.floor(seconds / 60)`, a colon, and `seconds % 60` padded to
      two characters. */
  function FormatTime(seconds: int): string {
    IntToString(seconds / 60) + ":" + PadStart2(IntToString(JsRem(seconds, 60)))
  }

  /** Reading digits back. */
  function ParseNat(s: string): nat {
    if s == [] then 0 else 10 * ParseNat(s[..|s| - 1]) + ((s[|s| - 1] as int - '0' as int) % 10)
  }

  lemma {:induction false} ParseNatToString(n: nat)
    ensures ParseNat(NatToString(n)) == n
  {
    var s := NatToString(n);
    if n >= 10 {
      ParseNatToString(n / 10);
      assert s[..|s| - 1] == NatToString(n / 10);
    }
  }

  lemma ParseLeadingZero(s: string)
    ensures ParseNat("0" + s) == ParseNat(s)
    decreases |s|
  {
    if s != [] {
      assert ("0" + s)[..|"0" + s| - 1] == "0" + s[..|s| - 1];
      ParseLeadingZero(s[..|s| - 1]);
    }
  }

  /** A number below 100 has at most two digits. */
  lemma ShortNumber(n: nat)
    requires n < 100
    ensures |NatToString(n)| <= 2
  {
    if n >= 10 {
      assert NatToString(n) == NatToString(n / 10) + ['0' + (n % 10) as char];
    }
  }

  /** The clock for a non-negative time: minutes, a colon, and exactly two digits of seconds
      below 60, which read back as the time: `m * 60 + ss == seconds`. */
  lemma FormatTimeRoundTrip(seconds: int)
    requires seconds >= 0
    ensures var t := FormatTime(seconds);
      var m := NatToString(seconds / 60);
      && t[..|m|] == m && t[|m|] == ':' && |t| == |m| + 3
      && ':' !in m
      && ParseNat(t[|m| + 1..]) < 60
      && ParseNat(t[..|m|]) * 60 + ParseNat(t[|m| + 1..]) == seconds
  {
    var m := NatToString(seconds / 60);
    var ss := NatToString(seconds % 60);
    var t := FormatTime(seconds);
    assert t == m + ":" + PadStart2(ss);
    ShortNumber(seconds % 60);
    ParseNatToString(seconds / 60);
    ParseNatToString(seconds % 60);
    assert t[..|m|] == m;
    assert t[|m| + 1..] == PadStart2(ss);
    if |ss| == 1 {
      ParseLeadingZero(ss);
    }
  }

  /** Examples: 5 minutes shows "5:00", 75 seconds "1:15", 9 seconds "0:09". */
  lemma FormatTimeExamples()
    ensures FormatTime(300) == "5:00"
    ensures FormatTime(75) == "1:15"
    ensures FormatTime(9) == "0:09"
  {
    assert IntToString(5) == "5" && IntToString(0) == "0" by {
      assert NatToString(5) == ['0' + 5 as char];
      assert NatToString(0) == ['0' + 0 as char];
    }
    assert IntToString(1) == "1" && IntToString(9) == "9" by {
      assert NatToString(1) == ['0' + 1 as char];
      assert NatToString(9) == ['0' + 9 as char];
    }
    assert IntToString(15) == "15" by {
      assert NatToString(15) == NatToString(1) + ['0' + 5 as char];
      assert NatToString(1) == ['0' + 1 as char];
    }
    assert FormatTime(300) == IntToString(5) + ":" + PadStart2(IntToString(0));
    assert FormatTime(75) == IntToString(1) + ":" + PadStart2(IntToString(15));
    assert FormatTime(9) == IntToString(0) + ":" + PadStart2(IntToString(9));
  }
}
