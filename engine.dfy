/**
 * The countdown engine of the Pomodoro tool (class Timer in LAWZHIXIN.py):
 * the remaining and the armed duration in whole seconds and the running
 * flag. The background thread that drives it is replaced by an explicit
 * Tick, one iteration of the RunTimer loop; datetime.now() is a parameter.
 */
module Engine {
  import opened Results
  import opened Text

  /** A reading of the clock: datetime.now() as '%Y-%m-%d' and as '%H:%M:%S'. */
  datatype Stamp = Stamp(date: string, time: string)

  /** The state of a Timer: CurrentTime, OriginalTime and isRunning. */
  datatype Countdown = Countdown(current: int, original: int, running: bool) {

    /** The invariant the engine keeps once armed with a non-negative duration. */
    predicate Valid() {
      0 <= current <= original
    }

    /** set_CurrentTime: a negative value is stored as 0, any other value as it is. */
    function WithCurrent(value: int): (r: Countdown)
      ensures r.current >= 0
      ensures value >= 0 ==> r.current == value
      ensures value < 0 ==> r.current == 0
      ensures r.original == original && r.running == running
    {
      this.(current := if value < 0 then 0 else value)
    }

    /** set_OriginalTime: a value <= 0 raises ValueError (None) and changes nothing. */
    function WithOriginal(value: int): (r: Option<Countdown>)
      ensures r.None? <==> value <= 0
      ensures r.Some? ==> r.value.original == value && r.value.original > 0
      ensures r.Some? ==> r.value.current == current && r.value.running == running
    {
      if value <= 0 then None else Some(this.(original := value))
    }

    /** SetTime: both times become the given number of seconds, unchecked; the running flag is untouched. */
    function Arm(seconds: int): (r: Countdown)
      ensures r.current == seconds && r.original == seconds && r.running == running
      ensures seconds >= 0 ==> r.Valid()
    {
      Countdown(seconds, seconds, running)
    }

    /** Whether Start takes effect (and records StartTime): only when idle with time left. */
    predicate Starts() {
      !running && current > 0
    }

    /** Start: the engine runs afterwards exactly when it already ran or had time left; the times do not change. */
    function Start(): (r: Countdown)
      ensures r.running <==> running || current > 0
      ensures r.current == current && r.original == original
      ensures !Starts() ==> r == this
      ensures Valid() ==> r.Valid()
    {
      if Starts() then this.(running := true) else this
    }

    /** Pause: stops the engine; the remaining time is kept exactly. */
    function Pause(): (r: Countdown)
      ensures !r.running && r.current == current && r.original == original
      ensures Valid() ==> r.Valid()
    {
      this.(running := false)
    }

    /** Reset: stops the engine and restores the remaining time to the armed duration. */
    function Reset(): (r: Countdown)
      ensures !r.running && r.current == original && r.original == original
      ensures original >= 0 ==> r.Valid()
    {
      Countdown(original, original, false)
    }

    /**
     * One iteration of RunTimer's loop: it runs only while running with time
     * left, and then takes exactly one second off; a stopped or expired
     * engine is unchanged, so the remaining time never drops below zero.
     */
    function Tick(): (r: Countdown)
      ensures running && current > 0 ==> r.current == current - 1
      ensures !(running && current > 0) ==> r == this
      ensures r.original == original && r.running == running
      ensures current >= 0 ==> r.current >= 0
      ensures Valid() ==> r.Valid()
    {
      if running && current > 0 then this.(current := current - 1) else this
    }

    /** After the loop: OnTimerFinished is called only if the time reached zero while still running. */
    predicate Fires() {
      running && current == 0
    }
  }

  /** k iterations of the RunTimer loop with nothing else happening in between. */
  function Ticks(c: Countdown, k: nat): Countdown {
    if k == 0 then c else Ticks(c, k - 1).Tick()
  }

  /** A running engine loses exactly one second per tick until it reaches zero, and keeps running. */
  lemma {:induction false} CountsDown(c: Countdown, k: nat)
    requires c.running && k <= c.current
    ensures Ticks(c, k) == c.(current := c.current - k)
  {
    if k > 0 {
      CountsDown(c, k - 1);
    }
  }

  /** Ticks delivered while paused are ignored: nothing is queued or replayed. */
  lemma {:induction false} PausedIgnoresTicks(c: Countdown, k: nat)
    requires !c.running
    ensures Ticks(c, k) == c
  {
    if k > 0 {
      PausedIgnoresTicks(c, k - 1);
    }
  }

  /** Once expired, further ticks change nothing. */
  lemma {:induction false} ExpiredStaysExpired(c: Countdown, k: nat)
    requires c.current == 0
    ensures Ticks(c, k) == c
  {
    if k > 0 {
      ExpiredStaysExpired(c, k - 1);
    }
  }

  /**
   * Arming n > 0 seconds, starting and ticking n times ends at zero, still
   * running, so the finish handler fires; it fires after no earlier tick,
   * hence exactly once.
   */
  lemma ArmedRunFiresOnce(c: Countdown, n: int)
    requires n > 0
    ensures Ticks(c.Arm(n).Start(), n as nat).Fires()
    ensures Ticks(c.Arm(n).Start(), n as nat) == Countdown(0, n, true)
    ensures forall k: nat | k < n :: !Ticks(c.Arm(n).Start(), k).Fires()
  {
    var s := c.Arm(n).Start();
    assert s == Countdown(n, n, true);
    CountsDown(s, n as nat);
    forall k: nat | k < n ensures !Ticks(s, k).Fires() {
      CountsDown(s, k);
    }
  }

  /**
   * Arm(3), Start, two ticks, Pause, five ignored ticks: one second remains;
   * Start again and one more tick reaches zero and fires.
   */
  lemma PauseResume(c: Countdown)
    ensures Ticks(Ticks(c.Arm(3).Start(), 2).Pause(), 5).current == 1
    ensures Ticks(Ticks(Ticks(c.Arm(3).Start(), 2).Pause(), 5).Start(), 1).Fires()
  {
    var s := c.Arm(3).Start();
    CountsDown(s, 2);
    var p := Ticks(s, 2).Pause();
    PausedIgnoresTicks(p, 5);
  }

  /** f"{n:02d}": at least two characters, zero-padded; a negative value keeps its sign. */
  function Pad2(n: int): string {
    if n < 0 then "-" + NatToString(-n)
    else if n < 10 then "0" + NatToString(n)
    else NatToString(n)
  }

  /** FormatTime: minutes and seconds (Python's floor divmod by 60) as "MM:SS". */
  function FormatTime(seconds: int): string {
    Pad2(seconds / 60) + ":" + Pad2(seconds % 60)
  }

  lemma Pad2Reads(n: nat)
    ensures ':' !in Pad2(n) && ParseDigits(Pad2(n)) == Some(n)
    ensures n < 100 ==> |Pad2(n)| == 2
  {
    ParseNatToString(n);
    if n < 10 {
      assert Pad2(n) == ['0', '0' + n as char];
      assert Pad2(n)[..1] == "0";
    } else if n < 100 {
      assert NatToString(n) == NatToString(n / 10) + ['0' + (n % 10) as char];
    }
    assert forall i | 0 <= i < |Pad2(n)| :: IsDigit(Pad2(n)[i]);
  }

  /**
   * FormatTime can be read back: for a non-negative time the text is two
   * colon-separated digit fields, the minutes and the seconds, and the
   * seconds field always has two digits; below 100 minutes it is five
   * characters long.
   */
  lemma FormatTimeReadsBack(seconds: int)
    requires seconds >= 0
    ensures var parts := Split(FormatTime(seconds), ':');
      |parts| == 2 && ParseDigits(parts[0]) == Some(seconds / 60) && ParseDigits(parts[1]) == Some(seconds % 60)
      && |parts[1]| == 2
      && 60 * ParseDigits(parts[0]).value + ParseDigits(parts[1]).value == seconds
    ensures seconds < 6000 ==> |FormatTime(seconds)| == 5
  {
    var m, s := seconds / 60, seconds % 60;
    Pad2Reads(m);
    Pad2Reads(s);
    SplitJoin([Pad2(m), Pad2(s)], ':');
    assert Join([Pad2(m), Pad2(s)], ':') == FormatTime(seconds);
  }

  /** The timer object; its methods change its fields as the Countdown functions say. */
  class Timer {
    var currentTime: int
    var originalTime: int
    var isRunning: bool
    var startTime: Option<Stamp>

    function State(): Countdown
      reads this
    {
      Countdown(currentTime, originalTime, isRunning)
    }

    constructor ()
      ensures State() == Countdown(0, 0, false) && startTime == None
    {
      currentTime, originalTime, isRunning, startTime := 0, 0, false, None;
    }

    method SetCurrentTime(value: int)
      modifies this
      ensures State() == old(State()).WithCurrent(value)
      ensures startTime == old(startTime)
    {
      if value < 0 {
        currentTime := 0;
      } else {
        currentTime := value;
      }
    }

    /** Returns false where the source raises ValueError. */
    method SetOriginalTime(value: int) returns (ok: bool)
      modifies this
      ensures ok <==> old(State()).WithOriginal(value).Some?
      ensures ok ==> State() == old(State()).WithOriginal(value).value
      ensures !ok ==> State() == old(State())
      ensures startTime == old(startTime)
    {
      if value <= 0 {
        return false;
      }
      originalTime := value;
      ok := true;
    }

    method SetTime(seconds: int)
      modifies this
      ensures State() == old(State()).Arm(seconds)
      ensures startTime == old(startTime)
    {
      currentTime := seconds;
      originalTime := seconds;
    }

    /** Start; the thread it spawns is modelled by Tick and RunTimer. */
    method Start(now: Stamp)
      modifies this
      ensures State() == old(State()).Start()
      ensures startTime == if old(State()).Starts() then Some(now) else old(startTime)
    {
      if !isRunning && currentTime > 0 {
        isRunning := true;
        startTime := Some(now);
      }
    }

    method Pause()
      modifies this
      ensures State() == old(State()).Pause()
      ensures startTime == old(startTime)
    {
      if isRunning {
        isRunning := false;
      }
    }

    method Reset()
      modifies this
      ensures State() == old(State()).Reset()
      ensures startTime == old(startTime)
    {
      isRunning := false;
      currentTime := originalTime;
    }

    /** One iteration of the RunTimer loop; returns whether the loop now ends with OnTimerFinished. */
    method Tick() returns (fires: bool)
      modifies this
      ensures State() == old(State()).Tick()
      ensures fires <==> State().Fires()
      ensures startTime == old(startTime)
    {
      if isRunning && currentTime > 0 {
        currentTime := currentTime - 1;
      }
      fires := currentTime == 0 && isRunning;
    }

    /**
     * The whole RunTimer loop when nothing pauses it: a running engine
     * counts down to zero and fires; a stopped one does nothing.
     */
    method RunTimer() returns (fires: bool)
      modifies this
      ensures State() == Ticks(old(State()), if old(isRunning) && old(currentTime) > 0 then old(currentTime) as nat else 0)
      ensures old(isRunning) && old(currentTime) >= 0 ==> currentTime == 0 && fires
      ensures !old(isRunning) ==> State() == old(State()) && !fires
      ensures fires <==> State().Fires()
      ensures startTime == old(startTime)
    {
      ghost var start := State();
      while isRunning && currentTime > 0
        invariant isRunning == start.running && originalTime == start.original && startTime == old(startTime)
        invariant start.running && start.current > 0 ==> 0 <= currentTime <= start.current
        invariant !(start.running && start.current > 0) ==> State() == start
        invariant start.running && start.current > 0 ==> State() == Ticks(start, (start.current - currentTime) as nat)
        decreases if currentTime > 0 then currentTime else 0
      {
        if isRunning {
          currentTime := currentTime - 1;
        }
      }
      fires := currentTime == 0 && isRunning;
    }
  }
}
