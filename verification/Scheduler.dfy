/** Day-time adjustment of cron expressions (scheduler/scheduler.service.ts). */
module Scheduler {
  import opened Strings

  datatype AdjustOption = Sunrise | Sunset

  /** An hour and a minute as decimal text. */
  datatype TimePoint = TimePoint(hours: string, minutes: string)

  datatype DayTimePoints = DayTimePoints(sunrise: TimePoint, sunset: TimePoint) {
    function At(option: AdjustOption): TimePoint {
      if option == Sunrise then sunrise else sunset
    }

    /** Rendered numbers contain no blank. */
    ghost predicate Valid() {
      forall o: AdjustOption :: Free(At(o).hours, ' ') && Free(At(o).minutes, ' ')
    }
  }

  const CRON_WITH_SECONDS_LENGTH := 6

  /** `Array.prototype.shift` with its result dropped. */
  function Shifted(parts: seq<string>): seq<string> {
    if parts == [] then [] else parts[1..]
  }

  /** The fields of a cron expression behind its seconds, minutes and hours. */
  function DayFields(cron: string): seq<string> {
    var parts := Split(cron, ' ');
    Shifted(Shifted(if |parts| == CRON_WITH_SECONDS_LENGTH then Shifted(parts) else parts))
  }

  function UpdateCronTime(cron: string, adjustTo: AdjustOption, times: DayTimePoints): string {
    var time := times.At(adjustTo);
    Join([time.minutes, time.hours] + DayFields(cron), ' ')
  }

  /**
   * An adjusted cron expression has the day fields of the original one and the new time in front of them, whether
   * or not the original had seconds. It never has six fields, so it is never taken for an expression with seconds.
   */
  lemma AdjustedFields(cron: string, adjustTo: AdjustOption, times: DayTimePoints)
    requires times.Valid()
    ensures adjustTo == Sunrise ==> Split(UpdateCronTime(cron, adjustTo, times), ' ')
                                    == [times.sunrise.minutes, times.sunrise.hours] + DayFields(cron)
    ensures adjustTo == Sunset ==> Split(UpdateCronTime(cron, adjustTo, times), ' ')
                                   == [times.sunset.minutes, times.sunset.hours] + DayFields(cron)
    ensures |DayFields(cron)| != 4 && DayFields(UpdateCronTime(cron, adjustTo, times)) == DayFields(cron)
    ensures var fields := Split(cron, ' '); |fields| in {5, 6} ==> DayFields(cron) == fields[|fields| - 3..]
  {
    var parts, time := Split(cron, ' '), times.At(adjustTo);
    JoinOfSplit(cron, ' ');
    var days := DayFields(cron);
    assert forall p :: p in days ==> p in parts;
    var fields := [time.minutes, time.hours] + days;
    SplitOfJoin(fields, ' ');
    assert Shifted(Shifted(fields)) == days;
  }

  /**
   * The array of cron fields is shifted in place. The result starts with the new minute and hour, which are followed by
   * the day, month and weekday of the original expression.
   */
  method AdjustCron(cron: string, adjustTo: AdjustOption, times: DayTimePoints) returns (adjusted: string)
    ensures adjusted == UpdateCronTime(cron, adjustTo, times)
    ensures var fields, time := Split(cron, ' '), if adjustTo == Sunset then times.sunset else times.sunrise;
            times.Valid() && |fields| in {5, 6} ==>
              Split(adjusted, ' ') == [time.minutes, time.hours] + fields[|fields| - 3..]
  {
    var cronParts: seq<string> := Split(cron, ' ');
    if |cronParts| == CRON_WITH_SECONDS_LENGTH {
      cronParts := Shifted(cronParts);
    }
    cronParts := Shifted(cronParts);
    cronParts := Shifted(cronParts);
    adjusted := Join([times.At(adjustTo).minutes, times.At(adjustTo).hours] + cronParts, ' ');
    if times.Valid() {
      AdjustedFields(cron, adjustTo, times);
    }
  }

  /** Adjusting again, as the nightly job does for a trigger it has adjusted already, forgets only the earlier time. */
  lemma AdjustingAgain(cron: string, first: AdjustOption, earlier: DayTimePoints, second: AdjustOption,
                       later: DayTimePoints)
    requires earlier.Valid() && later.Valid()
    ensures UpdateCronTime(UpdateCronTime(cron, first, earlier), second, later) == UpdateCronTime(cron, second, later)
  {
    AdjustedFields(cron, first, earlier);
  }
}
