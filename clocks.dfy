/** `Clock`: a step that writes the current time, optionally shifted by
    hours, minutes and seconds, into a date holder. A date is its count of
    milliseconds, and the current time is the reading `now` passed in. */
module Clocks {
  import opened Outcomes
  import opened DataHolders

  const HourMillis: int := 3600000
  const MinuteMillis: int := 60000
  const SecondMillis: int := 1000

  datatype Clock = Clock(output: SimpleHolder<int>, hourOffset: int, minuteOffset: int, secondOffset: int)
  {
    /** Shifts `now` by each non-zero offset in turn, negative ones
        included, and makes one write to the output holder. */
    method Execute(now: int)
      modifies output
      ensures output.data == Some(now + hourOffset * HourMillis + minuteOffset * MinuteMillis + secondOffset * SecondMillis)
      ensures output.written
    {
      var date := now;
      if hourOffset != 0 {
        date := date + hourOffset * HourMillis;
      }
      if minuteOffset != 0 {
        date := date + minuteOffset * MinuteMillis;
      }
      if secondOffset != 0 {
        date := date + secondOffset * SecondMillis;
      }
      output.Set(Some(date));
    }
  }

  /** `Clock.takeTime(output)`: no shift. */
  function TakeTime(output: SimpleHolder<int>): (c: Clock)
    ensures c.output == output && c.hourOffset == 0 && c.minuteOffset == 0 && c.secondOffset == 0
  {
    Clock(output, 0, 0, 0)
  }

  /** `Clock.takeTime(output, h, m, s)`. */
  function TakeTimeShifted(output: SimpleHolder<int>, hours: int, minutes: int, seconds: int): (c: Clock)
    ensures c.output == output && c.hourOffset == hours && c.minuteOffset == minutes && c.secondOffset == seconds
  {
    Clock(output, hours, minutes, seconds)
  }

  /** An unshifted clock stores the reading itself. */
  method TakeTimeStoresNow(now: int) returns (stored: Result<Option<int>>)
    ensures stored == Ok(Some(now))
  {
    var h := new SimpleHolder<int>.Typed("date");
    var c := TakeTime(h);
    c.Execute(now);
    stored := h.Get();
  }

  /** Offsets of one hour, minus two minutes and three seconds store
      now + 3600000 - 120000 + 3000 milliseconds. */
  method ClockWithOffsets(now: int) returns (stored: Result<Option<int>>)
    ensures stored == Ok(Some(now + 3600000 - 120000 + 3000))
  {
    var h := new SimpleHolder<int>.Typed("date");
    var c := TakeTimeShifted(h, 1, -2, 3);
    c.Execute(now);
    stored := h.Get();
  }
}
