/**
 * The Pomodoro timer (frontend/src/components/PomodoroTimer.jsx): three state
 * cells, the one-second tick, start/pause, reset, and the `mm:ss` display.
 */
module PomodoroTimer {
  import opened Wrappers

  /** `25 * 60`: a focus session, in seconds. */
  const FocusSeconds: int := 25 * 60
  /** `5 * 60`: a break, in seconds. */
  const BreakSeconds: int := 5 * 60

  /** The cells `isTimerRunning`, `isBreakTime` and `timeLeft`. */
  datatype TimerState = TimerState(running: bool, isBreak: bool, timeLeft: int)

  /** The three `useState` initial values. */
  const Initial := TimerState(false, false, FocusSeconds)

  /** Length of the current session. */
  function SessionLength(isBreak: bool): int
  {
    if isBreak then BreakSeconds else FocusSeconds
  }

  /** What every reachable state satisfies: between one second and a full session left. */
  predicate InRange(s: TimerState)
  {
    1 <= s.timeLeft <= SessionLength(s.isBreak)
  }

  /**
   * The interval body: count down, or at the last second stop, switch mode and
   * load the next session's length.
   */
  function Tick(s: TimerState): (r: TimerState)
    ensures InRange(s) ==> InRange(r)
    ensures r.running ==> s.running
    ensures r.isBreak != s.isBreak <==> s.timeLeft <= 1
  {
    if s.timeLeft <= 1 then TimerState(false, !s.isBreak, if s.isBreak then FocusSeconds else BreakSeconds)
    else s.(timeLeft := s.timeLeft - 1)
  }

  /** The state `handleStartPauseTimer` leaves. */
  function StartPause(s: TimerState): (r: TimerState)
    ensures r.running != s.running
    ensures InRange(r) <==> InRange(s)
  {
    s.(running := !s.running)
  }

  /** The state `handleResetTimer` leaves. */
  function Reset(s: TimerState): (r: TimerState)
    ensures InRange(r) && !r.running && r.isBreak == s.isBreak
  {
    TimerState(false, s.isBreak, SessionLength(s.isBreak))
  }

  /** A tick above one second counts down by exactly one and changes nothing else. */
  lemma TickCountsDown(s: TimerState)
    requires s.timeLeft > 1
    ensures Tick(s) == TimerState(s.running, s.isBreak, s.timeLeft - 1)
  {
  }

  /** The last tick stops the timer, flips the mode and loads the next session. */
  lemma TickSwitchesMode(s: TimerState)
    requires s.timeLeft <= 1
    ensures !Tick(s).running && Tick(s).isBreak == !s.isBreak
    ensures Tick(s).timeLeft == SessionLength(Tick(s).isBreak)
    ensures !s.isBreak ==> Tick(s).timeLeft == 300
    ensures s.isBreak ==> Tick(s).timeLeft == 1500
  {
  }

  /** Start/pause flips the running flag only, and twice is no change. */
  lemma StartPauseFlips(s: TimerState)
    ensures StartPause(s).running == !s.running
    ensures StartPause(s).isBreak == s.isBreak && StartPause(s).timeLeft == s.timeLeft
    ensures StartPause(StartPause(s)) == s
  {
  }

  /** Reset stops, keeps the mode, loads a full session, and is idempotent. */
  lemma ResetRestarts(s: TimerState)
    ensures !Reset(s).running && Reset(s).isBreak == s.isBreak
    ensures Reset(s).timeLeft == (if s.isBreak then 300 else 1500)
    ensures Reset(Reset(s)) == Reset(s)
  {
  }

  /** The user's and the clock's events. */
  datatype Event = Second | PressStartPause | PressReset

  /** One event; the interval exists only while the timer runs, so a second passes unseen otherwise. */
  function Step(s: TimerState, e: Event): TimerState
  {
    match e
    case Second => if s.running then Tick(s) else s
    case PressStartPause => StartPause(s)
    case PressReset => Reset(s)
  }

  /** The state after a history of events. */
  function Run(s: TimerState, events: seq<Event>): TimerState
    decreases |events|
  {
    if events == [] then s else Run(Step(s, events[0]), events[1..])
  }

  /** Every transition keeps the range invariant. */
  lemma StepInRange(s: TimerState, e: Event)
    requires InRange(s)
    ensures InRange(Step(s, e))
  {
  }

  /** From the initial state, every reachable state has 1 <= timeLeft <= 1500 (and <= 300 in a break). */
  lemma {:induction false} ReachableInRange(events: seq<Event>)
    ensures InRange(Run(Initial, events))
    ensures 1 <= Run(Initial, events).timeLeft <= 1500
  {
    RunInRange(Initial, events);
  }

  lemma {:induction false} RunInRange(s: TimerState, events: seq<Event>)
    requires InRange(s)
    ensures InRange(Run(s, events))
    decreases |events|
  {
    if events != [] {
      StepInRange(s, events[0]);
      RunInRange(Step(s, events[0]), events[1..]);
    }
  }

  // ---------------------------------------------------------------------------
  // formatTime
  // ---------------------------------------------------------------------------

  predicate IsDigit(c: char)
  {
    '0' <= c <= '9'
  }

  predicate AllDigits(s: string)
  {
    forall i :: 0 <= i < |s| ==> IsDigit(s[i])
  }

  function DigitChar(d: nat): (c: char)
    requires d < 10
    ensures IsDigit(c)
  {
    ('0' as int + d) as char
  }

  function DigitValue(c: char): nat
    requires IsDigit(c)
  {
    c as int - '0' as int
  }

  /** `n.toString()` for a non-negative integer. */
  function DecimalString(n: nat): (s: string)
    ensures 1 <= |s| && AllDigits(s)
    decreases n
  {
    if n < 10 then [DigitChar(n)] else DecimalString(n / 10) + [DigitChar(n % 10)]
  }

  /** Reads a run of decimal digits back as a number (the empty run reads 0). */
  function ParseDecimal(s: string): nat
    requires AllDigits(s)
    decreases |s|
  {
    if s == [] then 0 else 10 * ParseDecimal(s[..|s| - 1]) + DigitValue(s[|s| - 1])
  }

  /** `s.padStart(width, fill)`. */
  function PadStart(s: string, width: nat, fill: char): (r: string)
    ensures |r| == if |s| >= width then |s| else width
    decreases width - |s|
  {
    if |s| >= width then s else PadStart([fill] + s, width, fill)
  }

  /** `formatTime`: whole minutes and the remaining seconds, each padded to two digits. */
  function FormatTime(seconds: nat): (t: string)
    ensures |t| >= 5 && t[|t| - 3] == ':'
    ensures AllDigits(t[|t| - 2..]) && ParseDecimal(t[|t| - 2..]) == seconds % 60 < 60
    ensures seconds < 6000 ==> |t| == 5
    ensures ParseTime(t) == Some(seconds)
  {
    DisplayLayout(seconds / 60, seconds % 60);
    Display(seconds / 60, seconds % 60)
  }

  /** Reads `mm:ss` back: the text before the last three characters as minutes, the last two as seconds. */
  function ParseTime(text: string): Option<nat>
  {
    if |text| >= 4 && text[|text| - 3] == ':' && AllDigits(text[..|text| - 3]) && AllDigits(text[|text| - 2..])
    then Some(ParseDecimal(text[..|text| - 3]) * 60 + ParseDecimal(text[|text| - 2..]))
    else None
  }

  lemma {:induction false} ParseDecimalString(n: nat)
    ensures ParseDecimal(DecimalString(n)) == n
    decreases n
  {
    if n >= 10 {
      var s := DecimalString(n);
      ParseDecimalString(n / 10);
      assert s[..|s| - 1] == DecimalString(n / 10);
    }
  }

  lemma {:induction false} ParseLeadingZero(s: string)
    requires AllDigits(s)
    ensures AllDigits("0" + s) && ParseDecimal("0" + s) == ParseDecimal(s)
    decreases |s|
  {
    if s != [] {
      ParseLeadingZero(s[..|s| - 1]);
      assert ("0" + s)[..|s|] == "0" + s[..|s| - 1];
    }
  }

  lemma {:induction false} ParsePadded(s: string, width: nat)
    requires AllDigits(s)
    ensures AllDigits(PadStart(s, width, '0'))
    ensures ParseDecimal(PadStart(s, width, '0')) == ParseDecimal(s)
    decreases width - |s|
  {
    if |s| < width {
      ParseLeadingZero(s);
      assert ['0'] + s == "0" + s;
      ParsePadded("0" + s, width);
    }
  }

  lemma DecimalStringShort(n: nat)
    requires n < 100
    ensures |DecimalString(n)| <= 2
  {
  }

  /** The display of `q` minutes and `r` seconds, as `formatTime` assembles it. */
  function Display(q: nat, r: nat): string
  {
    PadStart(DecimalString(q), 2, '0') + ":" + PadStart(DecimalString(r), 2, '0')
  }

  /** `n.toString().padStart(2, '0')`: at least two digits worth `n`, exactly two below 100. */
  lemma PaddedDecimal(n: nat)
    ensures var p := PadStart(DecimalString(n), 2, '0');
      && |p| >= 2 && AllDigits(p) && ParseDecimal(p) == n
      && (n < 100 ==> |p| == 2)
  {
    ParsePadded(DecimalString(n), 2);
    ParseDecimalString(n);
    if n < 100 {
      DecimalStringShort(n);
    }
  }

  lemma DisplayLayout(q: nat, r: nat)
    requires r < 60
    ensures var t := Display(q, r);
      && |t| >= 5 && t[|t| - 3] == ':'
      && AllDigits(t[..|t| - 3]) && ParseDecimal(t[..|t| - 3]) == q
      && AllDigits(t[|t| - 2..]) && ParseDecimal(t[|t| - 2..]) == r
      && (q < 100 ==> |t| == 5)
  {
    var m := PadStart(DecimalString(q), 2, '0');
    var sec := PadStart(DecimalString(r), 2, '0');
    PaddedDecimal(q);
    PaddedDecimal(r);
    var t := m + ":" + sec;
    assert t[..|t| - 3] == m;
    assert t[|t| - 2..] == sec;
  }

  /** Every reachable state displays as five characters `mm:ss`. */
  lemma ReachableDisplay(events: seq<Event>)
    ensures 1 <= Run(Initial, events).timeLeft <= 1500
    ensures |FormatTime(Run(Initial, events).timeLeft)| == 5
  {
    ReachableInRange(events);
  }

  // ---------------------------------------------------------------------------
  // The component's state cells
  // ---------------------------------------------------------------------------

  class Timer {
    var isTimerRunning: bool
    var isBreakTime: bool
    var timeLeft: int

    function State(): TimerState
      reads this
    {
      TimerState(isTimerRunning, isBreakTime, timeLeft)
    }

    ghost predicate Valid()
      reads this
    {
      InRange(State())
    }

    constructor ()
      ensures State() == Initial && Valid()
    {
      isTimerRunning, isBreakTime, timeLeft := false, false, FocusSeconds;
    }

    /** One run of the interval callback; the interval is only installed while running. */
    method OnTick()
      requires Valid() && isTimerRunning
      modifies this
      ensures State() == Tick(old(State())) && Valid()
    {
      if timeLeft <= 1 {
        var wasBreak := isBreakTime;
        isTimerRunning := false;
        isBreakTime := !isBreakTime;
        timeLeft := if wasBreak then FocusSeconds else BreakSeconds;
      } else {
        timeLeft := timeLeft - 1;
      }
    }

    /** `handleStartPauseTimer`. */
    method HandleStartPause()
      requires Valid()
      modifies this
      ensures State() == StartPause(old(State())) && Valid()
    {
      isTimerRunning := !isTimerRunning;
    }

    /** `handleResetTimer`. */
    method HandleReset()
      requires Valid()
      modifies this
      ensures State() == Reset(old(State())) && Valid()
    {
      isTimerRunning := false;
      timeLeft := if isBreakTime then BreakSeconds else FocusSeconds;
    }
  }
}
