/**
 * The Pomodoro layer of LAWZHIXIN.py: the work/break cycle driven by the
 * countdown engine, the session records it appends, and the figures the
 * display derives from them. Widgets, message boxes and the JSON records
 * file are not modelled; the records loaded at start-up are a parameter.
 */
module Pomodoro {
  import opened Results
  import opened Text
  import opened Engine
  import Sorting

  const WorkTime: int := 25 * 60
  const ShortBreak: int := 5 * 60
  const LongBreak: int := 15 * 60
  const SessionsBreak: int := 4

  datatype Kind = Work | Break

  /** One entry of the session log, as built by OnTimerFinished. */
  datatype SessionRecord = SessionRecord(
    date: string,
    startTime: string,
    endTime: string,
    kind: Kind,
    duration: int,
    plannedDuration: int,
    completed: bool)

  /**
   * The record of an interval that ends in the given countdown state: the
   * elapsed part of the armed duration, which is all of it exactly when the
   * interval is marked completed.
   */
  function RecordOf(clock: Countdown, isBreak: bool, started: Stamp, ended: Stamp): (r: SessionRecord)
    ensures r.duration + clock.current == r.plannedDuration == clock.original
    ensures r.completed <==> r.duration == r.plannedDuration
    ensures clock.Valid() ==> 0 <= r.duration <= r.plannedDuration
    ensures r.kind == Break <==> isBreak
    ensures r.date == started.date && r.startTime == started.time && r.endTime == ended.time
  {
    SessionRecord(started.date, started.time, ended.time,
      if isBreak then Break else Work,
      clock.original - clock.current, clock.original, clock.current == 0)
  }

  /** The Pomodoro state: the engine's countdown, isBreak and SessionCount. */
  datatype Cycle = Cycle(clock: Countdown, isBreak: bool, sessionCount: int) {
    predicate Valid() {
      clock.Valid() && sessionCount >= 0
    }
  }

  /** The state the application starts in, and ResetTimer returns to. */
  const Initial: Cycle := Cycle(Countdown(WorkTime, WorkTime, false), false, 0)

  /** The break armed after the n-th completed work session: every SessionsBreak-th one is long. */
  function BreakAfter(n: int): int {
    if n % SessionsBreak == 0 then LongBreak else ShortBreak
  }

  /**
   * OnTimerFinished's effect on the cycle. The engine always stops. With
   * pop-ups on, a break is followed by a fresh work session, and a work
   * session is counted and followed by a break, long after every fourth;
   * with pop-ups off nothing else changes and the next interval is not armed.
   */
  function Finish(c: Cycle, popup: bool): (r: Cycle)
    ensures !r.clock.running
    ensures !popup ==> (r.isBreak == c.isBreak && r.sessionCount == c.sessionCount
                        && r.clock.current == c.clock.current && r.clock.original == c.clock.original)
    ensures popup ==> r.isBreak == !c.isBreak && r.clock.current == r.clock.original > 0
    ensures popup && c.isBreak ==> r.clock.original == WorkTime && r.sessionCount == c.sessionCount
    ensures popup && !c.isBreak ==> r.sessionCount == c.sessionCount + 1
    ensures popup && !c.isBreak ==> (r.clock.original == LongBreak <==> r.sessionCount % SessionsBreak == 0)
    ensures popup && !c.isBreak ==> (r.clock.original == ShortBreak <==> r.sessionCount % SessionsBreak != 0)
    ensures c.Valid() ==> r.Valid()
  {
    var stopped := c.clock.Pause();
    if !popup then c.(clock := stopped)
    else if c.isBreak then Cycle(stopped.Arm(WorkTime), false, c.sessionCount)
    else Cycle(stopped.Arm(BreakAfter(c.sessionCount + 1)), true, c.sessionCount + 1)
  }

  /** The heading UpdateDisplay shows. */
  datatype Title = WorkSessions | ShortBreakTitle | LongBreakTitle

  function TitleOf(c: Cycle): Title {
    if !c.isBreak then WorkSessions
    else if c.sessionCount % SessionsBreak == 0 && c.sessionCount > 0 then LongBreakTitle
    else ShortBreakTitle
  }

  /** After a work session ends, the heading names exactly the break that was armed. */
  lemma TitleNamesArmedBreak(c: Cycle)
    requires c.Valid() && !c.isBreak
    ensures TitleOf(Finish(c, true)) != WorkSessions
    ensures TitleOf(Finish(c, true)) == LongBreakTitle <==> Finish(c, true).clock.original == LongBreak
    ensures TitleOf(Finish(c, true)) == ShortBreakTitle <==> Finish(c, true).clock.original == ShortBreak
  {
  }

  /** A work session and the break after it, each ending with pop-ups on. */
  function Round(c: Cycle): Cycle {
    Finish(Finish(c, true), true)
  }

  function Rounds(c: Cycle, n: nat): Cycle {
    if n == 0 then c else Round(Rounds(c, n - 1))
  }

  /** Every round counts exactly one session and ends armed for a full work session. */
  lemma {:induction false} RoundsCount(c: Cycle, n: nat)
    requires !c.isBreak
    ensures !Rounds(c, n).isBreak
    ensures Rounds(c, n).sessionCount == c.sessionCount + n
    ensures n > 0 ==> Rounds(c, n).clock == Countdown(WorkTime, WorkTime, false)
  {
    if n > 0 {
      RoundsCount(c, n - 1);
    }
  }

  /**
   * From a fresh count, the (n+1)-th work session reads "Session:n+1" when
   * counted and is followed by a long break exactly when n+1 is a multiple
   * of four: sessions 4, 8, 12, ... get LongBreak, all others ShortBreak.
   */
  lemma BreakAfterRounds(c: Cycle, n: nat)
    requires !c.isBreak && c.sessionCount == 0
    ensures Finish(Rounds(c, n), true).sessionCount == n + 1
    ensures Finish(Rounds(c, n), true).clock.original == (if (n + 1) % 4 == 0 then LongBreak else ShortBreak)
    ensures TitleOf(Finish(Rounds(c, n), true)) == (if (n + 1) % 4 == 0 then LongBreakTitle else ShortBreakTitle)
  {
    RoundsCount(c, n);
  }

  /**
   * A work session armed by the cycle, started and run down tick by tick,
   * fires, is logged as completed with its full duration, and is followed
   * by a break.
   */
  lemma WorkRunEndsInBreak(c: Cycle, started: Stamp, ended: Stamp)
    requires c.Valid() && !c.isBreak && c.clock == Countdown(WorkTime, WorkTime, false)
    ensures Ticks(c.clock.Start(), WorkTime as nat).Fires()
    ensures RecordOf(Ticks(c.clock.Start(), WorkTime as nat), false, started, ended).completed
    ensures RecordOf(Ticks(c.clock.Start(), WorkTime as nat), false, started, ended).duration == WorkTime
    ensures Finish(c.(clock := Ticks(c.clock.Start(), WorkTime as nat)), true).isBreak
    ensures Finish(c.(clock := Ticks(c.clock.Start(), WorkTime as nat)), true).sessionCount == c.sessionCount + 1
  {
    ArmedRunFiresOnce(c.clock, WorkTime);
    assert c.clock.Arm(WorkTime) == c.clock;
  }

  /** The "Total Time" figure: seconds of all completed records, in log order. */
  function CompletedSeconds(rs: seq<SessionRecord>): int {
    if rs == [] then 0 else (if rs[0].completed then rs[0].duration else 0) + CompletedSeconds(rs[1..])
  }

  /** Appending a record adds its duration to the total exactly when it is completed. */
  lemma {:induction false} CompletedSecondsAppend(rs: seq<SessionRecord>, r: SessionRecord)
    ensures CompletedSeconds(rs + [r]) == CompletedSeconds(rs) + (if r.completed then r.duration else 0)
  {
    if rs != [] {
      assert (rs + [r])[1..] == rs[1..] + [r];
      CompletedSecondsAppend(rs[1..], r);
    }
  }

  /** With no negative durations logged, the total is not negative. */
  lemma {:induction false} CompletedSecondsNonNegative(rs: seq<SessionRecord>)
    requires forall i | 0 <= i < |rs| :: rs[i].duration >= 0
    ensures CompletedSeconds(rs) >= 0
  {
    if rs != [] {
      CompletedSecondsNonNegative(rs[1..]);
    }
  }

  /** divmod(total, 3600) then divmod(remainder, 60): whole hours and the whole minutes left over. */
  function HoursMinutes(total: int): (r: (int, int))
    ensures 0 <= r.1 < 60
    ensures 3600 * r.0 + 60 * r.1 <= total < 3600 * r.0 + 60 * r.1 + 60
    ensures total >= 0 ==> r.0 >= 0
  {
    (total / 3600, (total % 3600) / 60)
  }

  /** The "Xmin Ysec" of a record: minutes and seconds that make up its duration. */
  function MinSec(duration: int): (r: (int, int))
    ensures 60 * r.0 + r.1 == duration && 0 <= r.1 < 60
  {
    (duration / 60, duration % 60)
  }

  /** The records the "Today:" summary counts: completed work sessions of that day. */
  predicate TodayDone(x: SessionRecord, today: string) {
    x.date == today && x.completed && x.kind == Work
  }

  /** Today's completed work sessions, in log order. */
  function TodayWork(rs: seq<SessionRecord>, today: string): (r: seq<SessionRecord>)
    ensures |r| <= |rs|
    ensures forall x :: x in r <==> x in rs && TodayDone(x, today)
  {
    if rs == [] then []
    else
      var head := if TodayDone(rs[0], today) then [rs[0]] else [];
      head + TodayWork(rs[1..], today)
  }

  /** Every completed work record of the day is counted as often as it was logged, and nothing else. */
  lemma {:induction false} TodayWorkCounts(rs: seq<SessionRecord>, today: string)
    ensures forall x :: multiset(TodayWork(rs, today))[x] == if TodayDone(x, today) then multiset(rs)[x] else 0
  {
    if rs != [] {
      TodayWorkCounts(rs[1..], today);
      assert rs == [rs[0]] + rs[1..];
      var head := if TodayDone(rs[0], today) then [rs[0]] else [];
      assert TodayWork(rs, today) == head + TodayWork(rs[1..], today);
      assert multiset(rs) == multiset{rs[0]} + multiset(rs[1..]);
    }
  }

  /** Logging one more record extends today's work list by it exactly when it is a completed work session of today. */
  lemma {:induction false} TodayWorkAppend(rs: seq<SessionRecord>, x: SessionRecord, today: string)
    ensures TodayWork(rs + [x], today) == TodayWork(rs, today) + (if TodayDone(x, today) then [x] else [])
  {
    if rs == [] {
      assert [x][1..] == [];
    } else {
      assert (rs + [x])[1..] == rs[1..] + [x];
      TodayWorkAppend(rs[1..], x, today);
      var head := if TodayDone(rs[0], today) then [rs[0]] else [];
      var tail := if TodayDone(x, today) then [x] else [];
      assert TodayWork(rs + [x], today) == head + (TodayWork(rs[1..], today) + tail);
      Sorting.ConcatAssoc(head, TodayWork(rs[1..], today), tail);
    }
  }

  /** The "Today:" summary: how many work sessions, and their total as hours and minutes. */
  function TodaySummary(rs: seq<SessionRecord>, today: string): (r: (nat, int, int))
    ensures r.0 == |TodayWork(rs, today)|
    ensures (r.1, r.2) == HoursMinutes(CompletedSeconds(TodayWork(rs, today)))
  {
    var work := TodayWork(rs, today);
    var total := CompletedSeconds(work);
    (|work|, total / 3600, (total % 3600) / 60)
  }

  /** The progress bar: the elapsed percentage, set only when a duration is armed. */
  function Progress(c: Countdown): (r: Option<real>)
    ensures r.Some? <==> c.original > 0
    ensures c.Valid() && r.Some? ==> 0.0 <= r.value <= 100.0
    ensures r.Some? && c.current == 0 ==> r.value == 100.0
    ensures r.Some? && c.current == c.original ==> r.value == 0.0
  {
    if c.original > 0 then
      var e := (c.original - c.current) as real;
      var o := c.original as real;
      assert c.Valid() ==> 0.0 <= e <= o;
      Some(e / o * 100.0)
    else None
  }

  /** Why setCustomTime refused an entry. */
  datatype CustomError = TimerRunning | EmptyEntry | NotANumber | NotPositive | TooLarge

  /**
   * setCustomTime's checks, in order: the minutes it accepts, or why not.
   * int() strips the text itself, so the number read is ParseInt(entry).
   */
  function CustomMinutes(running: bool, entry: string): (r: Result<int, CustomError>)
    ensures running ==> r == Err(TimerRunning)
    ensures r.Ok? <==> !running && ParseInt(entry).Some? && 1 <= ParseInt(entry).value <= 999
    ensures r.Ok? ==> r.value == ParseInt(entry).value
    ensures !running && Strip(entry) == [] ==> r == Err(EmptyEntry)
  {
    if running then Err(TimerRunning)
    else if Strip(entry) == [] then Err(EmptyEntry)
    else match ParseInt(entry)
      case None => Err(NotANumber)
      case Some(m) =>
        if m <= 0 then Err(NotPositive)
        else if m > 999 then Err(TooLarge)
        else Ok(m)
  }

  /** Every whole number of minutes from 1 to 999, typed as digits, is accepted while idle. */
  lemma CustomMinutesAccepts(m: nat)
    requires 1 <= m <= 999
    ensures CustomMinutes(false, NatToString(m)) == Ok(m)
  {
    ParseIntNatToString(m);
    StripStripped(NatToString(m));
  }

  /** The session log. */
  class SessionManager {
    var records: seq<SessionRecord>

    /** The records LoadRecords found (empty when there was no file or it could not be read). */
    constructor (loaded: seq<SessionRecord>)
      ensures records == loaded
    {
      records := loaded;
    }

    method AddRecords(record: SessionRecord)
      modifies this
      ensures records == old(records) + [record]
    {
      records := records + [record];
    }

    method ClearRecords()
      modifies this
      ensures records == []
    {
      records := [];
    }
  }

  /**
   * The application object. It extends Timer in the source; here it owns
   * one, and the state the two share is `Status()`.
   */
  class PomodoroTimer {
    const timer: Timer
    const sessions: SessionManager
    var isBreak: bool
    var sessionCount: int
    var popupEnabled: bool

    function Status(): Cycle
      reads this, timer
    {
      Cycle(timer.State(), isBreak, sessionCount)
    }

    /** The cycle is consistent, and an engine that runs has a start time to log. */
    predicate Valid()
      reads this, timer
    {
      Status().Valid() && (timer.isRunning ==> timer.startTime.Some?)
    }

    constructor (loaded: seq<SessionRecord>)
      ensures fresh(timer) && fresh(sessions)
      ensures Status() == Initial && timer.startTime == None
      ensures sessions.records == loaded && popupEnabled
      ensures Valid()
    {
      timer := new Timer();
      sessions := new SessionManager(loaded);
      isBreak, sessionCount, popupEnabled := false, 0, true;
      new;
      timer.SetTime(WorkTime);
    }

    method StartTimer(now: Stamp)
      requires Valid()
      modifies timer
      ensures Valid()
      ensures Status() == old(Status()).(clock := old(timer.State()).Start())
      ensures timer.startTime == if old(timer.State()).Starts() then Some(now) else old(timer.startTime)
    {
      timer.Start(now);
    }

    method PauseTimer()
      requires Valid()
      modifies timer
      ensures Valid()
      ensures Status() == old(Status()).(clock := old(timer.State()).Pause())
      ensures timer.startTime == old(timer.startTime)
    {
      timer.Pause();
    }

    /** Back to the initial state: a stopped, full work session and no sessions counted. */
    method ResetTimer()
      requires Valid()
      modifies this, timer
      ensures Valid()
      ensures Status() == Initial
      ensures timer.startTime == old(timer.startTime) && popupEnabled == old(popupEnabled)
    {
      timer.Reset();
      isBreak := false;
      timer.SetTime(WorkTime);
      sessionCount := 0;
    }

    /** setCustomTime: arms the accepted number of minutes as a work session; a refused entry changes nothing. */
    method SetCustomTime(entry: string) returns (r: Result<int, CustomError>)
      requires Valid()
      modifies this, timer
      ensures Valid()
      ensures r == CustomMinutes(old(timer.isRunning), entry)
      ensures r.Ok? ==> Status() == old(Status()).(clock := old(timer.State()).Arm(r.value * 60), isBreak := false)
      ensures r.Err? ==> Status() == old(Status())
      ensures timer.startTime == old(timer.startTime) && popupEnabled == old(popupEnabled)
    {
      r := CustomMinutes(timer.isRunning, entry);
      if r.Ok? {
        timer.SetTime(r.value * 60);
        isBreak := false;
      }
    }

    /**
     * OnTimerFinished: logs the interval and advances the cycle. It returns
     * false, changing nothing, where the source fails because no interval
     * was ever started (StartTime is None).
     */
    method OnTimerFinished(now: Stamp) returns (ok: bool)
      requires Valid()
      modifies this, timer, sessions
      ensures Valid()
      ensures ok <==> old(timer.startTime).Some?
      ensures ok ==> (sessions.records == old(sessions.records)
                       + [RecordOf(old(timer.State()), old(isBreak), old(timer.startTime).value, now)])
      ensures ok ==> Status() == Finish(old(Status()), popupEnabled)
      ensures !ok ==> sessions.records == old(sessions.records) && Status() == old(Status())
      ensures timer.startTime == old(timer.startTime) && popupEnabled == old(popupEnabled)
    {
      if timer.startTime.None? {
        return false;
      }
      var record := RecordOf(timer.State(), isBreak, timer.startTime.value, now);
      sessions.AddRecords(record);
      timer.isRunning := false;
      if popupEnabled {
        if isBreak {
          isBreak := false;
          timer.SetTime(WorkTime);
        } else {
          sessionCount := sessionCount + 1;
          isBreak := true;
          if sessionCount % SessionsBreak == 0 {
            timer.SetTime(LongBreak);
          } else {
            timer.SetTime(ShortBreak);
          }
        }
      }
      ok := true;
    }

    /** SkipTimer: pauses if running, then finishes the interval with the time it has left. */
    method SkipTimer(now: Stamp) returns (ok: bool)
      requires Valid()
      modifies this, timer, sessions
      ensures Valid()
      ensures ok <==> old(timer.startTime).Some?
      ensures ok ==> (sessions.records == old(sessions.records)
                       + [RecordOf(old(timer.State()).Pause(), old(isBreak), old(timer.startTime).value, now)])
      ensures ok ==> Status() == Finish(old(Status()), popupEnabled)
      ensures !ok ==> sessions.records == old(sessions.records) && Status() == old(Status())
      ensures timer.startTime == old(timer.startTime) && popupEnabled == old(popupEnabled)
    {
      if timer.isRunning {
        timer.Pause();
      }
      ok := OnTimerFinished(now);
    }

    /**
     * One second of the background countdown, and OnTimerFinished when it
     * brings a running engine to zero.
     */
    method Tick(now: Stamp) returns (fired: bool)
      requires Valid()
      modifies this, timer, sessions
      ensures Valid()
      ensures fired <==> old(timer.State()).Tick().Fires()
      ensures fired ==> (sessions.records == old(sessions.records)
                          + [RecordOf(old(timer.State()).Tick(), old(isBreak), old(timer.startTime).value, now)])
      ensures fired ==> Status() == Finish(old(Status()).(clock := old(timer.State()).Tick()), popupEnabled)
      ensures !fired ==> (sessions.records == old(sessions.records)
                          && Status() == old(Status()).(clock := old(timer.State()).Tick()))
      ensures timer.startTime == old(timer.startTime) && popupEnabled == old(popupEnabled)
    {
      fired := timer.Tick();
      if fired {
        var ok := OnTimerFinished(now);
      }
    }

    /** ClearRecords: empties the log once confirmed; the display totals then read zero. */
    method ClearRecords(confirmed: bool)
      modifies sessions
      ensures confirmed ==> sessions.records == [] && CompletedSeconds(sessions.records) == 0
      ensures !confirmed ==> sessions.records == old(sessions.records)
    {
      if confirmed {
        sessions.ClearRecords();
      }
    }
  }
}
