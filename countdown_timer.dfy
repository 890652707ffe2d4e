/**
 * The countdown timer: the time left split into days, hours, minutes and
 * seconds, each unit shown as at least two digits, the fixed timezone
 * table, the expiry path and the automatic restart. Times are integer
 * milliseconds; the clock and the date parser are parameters.
 */
module Countdown {
  import opened Optional
  import opened Text
  import Arithmetic

  const MsPerSecond: int := 1000
  const MsPerMinute: int := 60000
  const MsPerHour: int := 3600000
  const MsPerDay: int := 86400000

  /** The restart interval used when the attribute is missing or zero. */
  const DefaultRestartInterval: int := 86400000

  // ---------------------------------------------------------------------
  // Splitting the time left

  datatype Units = Units(days: nat, hours: nat, minutes: nat, seconds: nat)

  /** The milliseconds the units stand for. */
  function TotalMs(u: Units): int {
    u.days * 86400000 + u.hours * 3600000 + u.minutes * 60000 + u.seconds * 1000
  }

  /** `updateTimer`'s split of a positive time left: whole days, then the
      hours, minutes and seconds of what remains. */
  function Decompose(timeLeft: nat): Units {
    Units(timeLeft / 86400000, (timeLeft % 86400000) / 3600000,
          (timeLeft % 3600000) / 60000, (timeLeft % 60000) / 1000)
  }

  /** Hours, minutes and seconds stay below a day, an hour and a minute, and
      the units fall short of the time left by less than a second. */
  lemma DecomposeBounds(timeLeft: nat)
    ensures var u := Decompose(timeLeft);
      u.hours < 24 && u.minutes < 60 && u.seconds < 60 &&
      TotalMs(u) <= timeLeft < TotalMs(u) + MsPerSecond
  {
    var u := Decompose(timeLeft);
    var inDay, inHour, inMinute := timeLeft % 86400000, timeLeft % 3600000, timeLeft % 60000;
    RemainderOfRemainder(timeLeft);
    assert timeLeft == u.days * 86400000 + inDay;
    assert inDay == u.hours * 3600000 + inHour;
    assert inHour == u.minutes * 60000 + inMinute;
    assert inMinute == u.seconds * 1000 + timeLeft % 1000;
  }

  /** Taking the remainder by a day, an hour or a minute first does not
      change the remainder by the next smaller unit. */
  lemma RemainderOfRemainder(t: nat)
    ensures (t % 86400000) % 3600000 == t % 3600000
    ensures (t % 3600000) % 60000 == t % 60000
    ensures (t % 60000) % 1000 == t % 1000
  {
    var d, h, m := t % 86400000, t % 3600000, t % 60000;
    Arithmetic.DivModUnique(t, 3600000, t / 86400000 * 24 + d / 3600000, d % 3600000);
    Arithmetic.DivModUnique(t, 60000, t / 3600000 * 60 + h / 60000, h % 60000);
    Arithmetic.DivModUnique(t, 1000, t / 60000 * 60 + m / 1000, m % 1000);
  }

  /** The split is the only one within those bounds: a time made of bounded
      units plus less than a second splits back into those units. */
  lemma DecomposeUnique(u: Units, ms: nat)
    requires u.hours < 24 && u.minutes < 60 && u.seconds < 60 && ms < MsPerSecond
    ensures Decompose(TotalMs(u) + ms) == u
  {
    var t := TotalMs(u) + ms;
    var belowMinute := u.seconds * 1000 + ms;
    var belowHour := u.minutes * 60000 + belowMinute;
    var belowDay := u.hours * 3600000 + belowHour;
    Arithmetic.DivModUnique(t, 86400000, u.days, belowDay);
    Arithmetic.DivModUnique(belowDay, 3600000, u.hours, belowHour);
    Arithmetic.DivModUnique(t, 3600000, u.days * 24 + u.hours, belowHour);
    Arithmetic.DivModUnique(belowHour, 60000, u.minutes, belowMinute);
    Arithmetic.DivModUnique(t, 60000, (u.days * 24 + u.hours) * 60 + u.minutes, belowMinute);
    Arithmetic.DivModUnique(belowMinute, 1000, u.seconds, ms);
  }

  /** A unit's text: its digits, with a `0` in front when there is only
      one. */
  function Pad2(n: nat): string {
    if n < 10 then ['0'] + NatToString(n) else NatToString(n)
  }

  /** The text is `n.toString().padStart(2, '0')`: at least two digits,
      the number's own digits at the end, and it reads back as the
      number. */
  lemma Pad2Facts(n: nat)
    ensures Pad2(n) == PadStart(NatToString(n), 2, '0')
    ensures |Pad2(n)| >= 2 && AllDigits(Pad2(n)) && ParseDigits(Pad2(n)) == n
  {
    var d := NatToString(n);
    ParseNatToString(n);
    if n < 10 {
      var p := PadStart(d, 2, '0');
      assert |p| == 2 && p[1..] == d && p[0] == '0';
      assert p == ['0'] + d;
      assert Pad2(n)[..1] == ['0'] && Pad2(n)[1..] == d;
    }
  }

  // ---------------------------------------------------------------------
  // Configuration

  /** `getTimezoneOffset`: the fixed table in milliseconds; any other zone
      is 0. */
  function TimezoneOffset(timezone: string): (offset: int)
    ensures timezone == "EST" ==> offset == -5 * 3600000
    ensures timezone == "CST" ==> offset == -6 * 3600000
    ensures timezone == "MST" ==> offset == -7 * 3600000
    ensures timezone == "PST" ==> offset == -8 * 3600000
    ensures timezone !in {"EST", "CST", "MST", "PST"} ==> offset == 0
  {
    if timezone == "EST" then -5 * 3600000
    else if timezone == "CST" then -6 * 3600000
    else if timezone == "MST" then -7 * 3600000
    else if timezone == "PST" then -8 * 3600000
    else 0
  }

  /** The adjustment `initializeTimer` applies: none for `UTC`, the table
      entry otherwise. Skipping `UTC` changes nothing, since its entry is
      0. */
  function Adjustment(timezone: string): (offset: int)
    ensures offset == TimezoneOffset(timezone)
    ensures offset in {0, -5 * 3600000, -6 * 3600000, -7 * 3600000, -8 * 3600000}
  {
    if timezone != "UTC" then TimezoneOffset(timezone) else 0
  }

  /** `parseInt(attribute) * 1000 || 24h`, `None` being `NaN`. */
  function RestartInterval(parsed: Option<int>): (interval: int)
    ensures parsed.Some? && parsed.value != 0 ==> interval == parsed.value * 1000
    ensures parsed.None? || parsed.value == 0 ==> interval == DefaultRestartInterval
    ensures interval != 0
  {
    if parsed.Some? && parsed.value * 1000 != 0 then parsed.value * 1000 else DefaultRestartInterval
  }

  /** The string handed to the date parser: the date, then `T` and the time
      when one is given. */
  function DateString(endDate: string, endTime: string): string {
    if endTime != "" then endDate + "T" + endTime else endDate
  }

  /** The data attributes (a missing one is `""`; the restart interval as
      `parseInt` read it). */
  datatype Attributes = Attributes(
    endDate: string, endTime: string, timezone: string,
    showDays: string, showHours: string, showMinutes: string, showSeconds: string,
    hideWhenExpired: string, expiredMessage: string, autoRestart: string,
    restartInterval: Option<int>)

  /** The settings `initializeTimer` reads. */
  datatype Config = Config(
    timezone: string, showDays: bool, showHours: bool, showMinutes: bool, showSeconds: bool,
    hideWhenExpired: bool, expiredMessage: string, autoRestart: bool, restartInterval: int)

  /** The settings the element's constructor starts with: `UTC`, every unit
      shown, no message, no restart, a 24-hour interval. */
  const DefaultConfig: Config :=
    Config("UTC", true, true, true, true, false, "", false, DefaultRestartInterval)

  /** The settings read from the attributes: a flag is on exactly when its
      attribute is `true`; the timezone defaults to `UTC`, the restart
      interval to 24 hours. */
  function ConfigOf(attrs: Attributes): (c: Config)
    ensures c.timezone == if attrs.timezone != "" then attrs.timezone else "UTC"
    ensures c.showDays == (attrs.showDays == "true") && c.showHours == (attrs.showHours == "true")
    ensures c.showMinutes == (attrs.showMinutes == "true") && c.showSeconds == (attrs.showSeconds == "true")
    ensures c.hideWhenExpired == (attrs.hideWhenExpired == "true") && c.autoRestart == (attrs.autoRestart == "true")
    ensures c.expiredMessage == attrs.expiredMessage
    ensures c.restartInterval != 0
    ensures attrs.restartInterval.None? ==> c.restartInterval == DefaultRestartInterval
    ensures attrs.restartInterval.Some? && attrs.restartInterval.value != 0 ==>
      c.restartInterval == attrs.restartInterval.value * 1000
  {
    Config(if attrs.timezone != "" then attrs.timezone else "UTC",
           attrs.showDays == "true", attrs.showHours == "true",
           attrs.showMinutes == "true", attrs.showSeconds == "true",
           attrs.hideWhenExpired == "true", attrs.expiredMessage, attrs.autoRestart == "true",
           RestartInterval(attrs.restartInterval))
  }

  /** The events the timer dispatches. */
  datatype Event = Expired | Restarted(newEndDate: int)

  class CountdownTimer {
    /** Which of the unit and message elements exist in the markup. */
    const hasDays: bool
    const hasHours: bool
    const hasMinutes: bool
    const hasSeconds: bool
    const hasExpiredMessage: bool

    var endDate: Option<int>
    var initialEndDate: Option<int>
    var config: Config
    /** Whether the one-second interval is set. */
    var running: bool
    var isExpired: bool
    /** Whether the whole timer is hidden. */
    var hidden: bool
    var daysText: string
    var hoursText: string
    var minutesText: string
    var secondsText: string
    var expiredMessageShown: bool
    /** Whether a restart is scheduled five seconds after expiry. */
    var restartPending: bool
    var events: seq<Event>

    /** An end date is set exactly when a parsed date is kept, and the
        restart interval is never 0. */
    ghost predicate Valid()
      reads this
    {
      config.restartInterval != 0 && (endDate.Some? <==> initialEndDate.Some?)
    }

    /** The visible state: whether the timer is hidden, whether the expired
        message shows, and the four unit texts. */
    ghost predicate DisplayIs(hides: bool, message: bool, d: string, h: string, m: string, s: string)
      reads this`hidden, this`expiredMessageShown, this`daysText, this`hoursText, this`minutesText, this`secondsText
    {
      hidden == hides && expiredMessageShown == message &&
      daysText == d && hoursText == h && minutesText == m && secondsText == s
    }

    /** The display while counting, after `updateDisplay` of `u` over the
        texts `d`, `h`, `m`, `s`: each present and shown unit reads its
        padded value, the others keep their text. */
    ghost predicate Counting(u: Units, d: string, h: string, m: string, s: string)
      reads this`config, this`daysText, this`hoursText, this`minutesText, this`secondsText
    {
      && daysText == (if hasDays && config.showDays then Pad2(u.days) else d)
      && hoursText == (if hasHours && config.showHours then Pad2(u.hours) else h)
      && minutesText == (if hasMinutes && config.showMinutes then Pad2(u.minutes) else m)
      && secondsText == (if hasSeconds && config.showSeconds then Pad2(u.seconds) else s)
    }

    /** The display after `handleExpired` over the given one: the message
        shows when there is one, the timer is hidden when it hides on expiry
        and otherwise every present unit reads `00`. */
    ghost predicate ExpiredDisplay(hides: bool, message: bool, d: string, h: string, m: string, s: string)
      reads this`config, this`hidden, this`expiredMessageShown,
        this`daysText, this`hoursText, this`minutesText, this`secondsText
    {
      && expiredMessageShown == (if hasExpiredMessage && config.expiredMessage != "" then true else message)
      && hidden == (hides || config.hideWhenExpired)
      && daysText == (if !config.hideWhenExpired && hasDays then "00" else d)
      && hoursText == (if !config.hideWhenExpired && hasHours then "00" else h)
      && minutesText == (if !config.hideWhenExpired && hasMinutes then "00" else m)
      && secondsText == (if !config.hideWhenExpired && hasSeconds then "00" else s)
    }

    /** The element's constructor: no end date yet, every unit shown, a
        24-hour restart interval. */
    constructor (hasDays: bool, hasHours: bool, hasMinutes: bool, hasSeconds: bool, hasExpiredMessage: bool)
      ensures Valid()
      ensures this.hasDays == hasDays && this.hasHours == hasHours && this.hasMinutes == hasMinutes
      ensures this.hasSeconds == hasSeconds && this.hasExpiredMessage == hasExpiredMessage
      ensures endDate == None && initialEndDate == None && config == DefaultConfig
      ensures !running && !isExpired && !hidden && !restartPending && events == []
    {
      this.hasDays := hasDays;
      this.hasHours := hasHours;
      this.hasMinutes := hasMinutes;
      this.hasSeconds := hasSeconds;
      this.hasExpiredMessage := hasExpiredMessage;
      endDate := None;
      initialEndDate := None;
      config := DefaultConfig;
      running := false;
      isExpired := false;
      hidden := false;
      daysText, hoursText, minutesText, secondsText := "", "", "", "";
      expiredMessageShown := false;
      restartPending := false;
      events := [];
    }

    /** `initializeTimer`: reads the settings; without an end date the
        timer is hidden and no date is set; otherwise the parsed date is
        kept and the end date is moved by the timezone adjustment. */
    method InitializeTimer(attrs: Attributes, parse: string -> int)
      requires Valid()
      modifies this`config, this`endDate, this`initialEndDate, this`hidden
      ensures Valid()
      ensures config == ConfigOf(attrs)
      ensures attrs.endDate == "" ==> hidden && endDate == old(endDate) && initialEndDate == old(initialEndDate)
      ensures attrs.endDate != "" ==>
        var parsed := parse(DateString(attrs.endDate, attrs.endTime));
        initialEndDate == Some(parsed) && endDate == Some(parsed + Adjustment(config.timezone)) &&
        hidden == old(hidden)
    {
      config := ConfigOf(attrs);
      if attrs.endDate != "" {
        var dateString := attrs.endDate;
        if attrs.endTime != "" {
          dateString := dateString + "T" + attrs.endTime;
        }
        endDate := Some(parse(dateString));
        initialEndDate := Some(parse(dateString));
        if config.timezone != "UTC" {
          var offset := TimezoneOffset(config.timezone);
          endDate := Some(endDate.value + offset);
        }
      } else {
        hidden := true;
        return;
      }
    }

    /** `updateDisplay`: each present and shown unit gets its padded text;
        the others keep theirs. */
    method UpdateDisplay(u: Units)
      modifies this`daysText, this`hoursText, this`minutesText, this`secondsText
      ensures daysText == if hasDays && config.showDays then Pad2(u.days) else old(daysText)
      ensures hoursText == if hasHours && config.showHours then Pad2(u.hours) else old(hoursText)
      ensures minutesText == if hasMinutes && config.showMinutes then Pad2(u.minutes) else old(minutesText)
      ensures secondsText == if hasSeconds && config.showSeconds then Pad2(u.seconds) else old(secondsText)
    {
      if hasDays && config.showDays {
        daysText := Pad2(u.days);
      }
      if hasHours && config.showHours {
        hoursText := Pad2(u.hours);
      }
      if hasMinutes && config.showMinutes {
        minutesText := Pad2(u.minutes);
      }
      if hasSeconds && config.showSeconds {
        secondsText := Pad2(u.seconds);
      }
    }

    /** The expired state of `handleExpired`: every present unit reads
        `00`. */
    method ShowExpiredState()
      modifies this`daysText, this`hoursText, this`minutesText, this`secondsText
      ensures daysText == if hasDays then "00" else old(daysText)
      ensures hoursText == if hasHours then "00" else old(hoursText)
      ensures minutesText == if hasMinutes then "00" else old(minutesText)
      ensures secondsText == if hasSeconds then "00" else old(secondsText)
    {
      if hasDays { daysText := "00"; }
      if hasHours { hoursText := "00"; }
      if hasMinutes { minutesText := "00"; }
      if hasSeconds { secondsText := "00"; }
    }

    /** `handleExpired`: expired and stopped; the message shown when there
        is one; the timer hidden, or every present unit reading `00`; a
        restart scheduled when auto-restart is on; the expired event. */
    method HandleExpired()
      modifies this`isExpired, this`running, this`expiredMessageShown, this`hidden,
        this`daysText, this`hoursText, this`minutesText, this`secondsText,
        this`restartPending, this`events
      ensures isExpired && !running
      ensures expiredMessageShown == if hasExpiredMessage && config.expiredMessage != "" then true else old(expiredMessageShown)
      ensures hidden == (old(hidden) || config.hideWhenExpired)
      ensures daysText == if !config.hideWhenExpired && hasDays then "00" else old(daysText)
      ensures hoursText == if !config.hideWhenExpired && hasHours then "00" else old(hoursText)
      ensures minutesText == if !config.hideWhenExpired && hasMinutes then "00" else old(minutesText)
      ensures secondsText == if !config.hideWhenExpired && hasSeconds then "00" else old(secondsText)
      ensures restartPending == (old(restartPending) || config.autoRestart)
      ensures events == old(events) + [Expired]
    {
      isExpired := true;
      running := false;
      if hasExpiredMessage && config.expiredMessage != "" {
        expiredMessageShown := true;
      }
      if config.hideWhenExpired {
        hidden := true;
      } else {
        ShowExpiredState();
      }
      if config.autoRestart {
        restartPending := true;
      }
      events := events + [Expired];
    }

    /** `updateTimer` at time `now`: with no end date the call throws
        (`threw`) and changes nothing; a time left of at most 0 takes the
        expiry path; otherwise the split time left is displayed. */
    method UpdateTimer(now: int) returns (threw: bool)
      modifies this`isExpired, this`running, this`expiredMessageShown, this`hidden,
        this`daysText, this`hoursText, this`minutesText, this`secondsText,
        this`restartPending, this`events
      ensures threw <==> endDate.None?
      ensures threw ==>
        isExpired == old(isExpired) && events == old(events) && running == old(running) &&
        restartPending == old(restartPending) &&
        DisplayIs(old(hidden), old(expiredMessageShown), old(daysText), old(hoursText), old(minutesText), old(secondsText))
      ensures !threw && endDate.value - now <= 0 ==>
        isExpired && !running && events == old(events) + [Expired] &&
        restartPending == (old(restartPending) || config.autoRestart) &&
        ExpiredDisplay(old(hidden), old(expiredMessageShown), old(daysText), old(hoursText), old(minutesText), old(secondsText))
      ensures !threw && endDate.value - now > 0 ==>
        isExpired == old(isExpired) && running == old(running) && events == old(events) &&
        hidden == old(hidden) && expiredMessageShown == old(expiredMessageShown) &&
        restartPending == old(restartPending) &&
        Counting(Decompose(endDate.value - now), old(daysText), old(hoursText), old(minutesText), old(secondsText))
    {
      if endDate.None? {
        return true;
      }
      var timeLeft := endDate.value - now;
      if timeLeft <= 0 {
        HandleExpired();
        return false;
      }
      var days := timeLeft / MsPerDay;
      var hours := (timeLeft % MsPerDay) / MsPerHour;
      var minutes := (timeLeft % MsPerHour) / MsPerMinute;
      var seconds := (timeLeft % MsPerMinute) / MsPerSecond;
      UpdateDisplay(Units(days, hours, minutes, seconds));
      return false;
    }

    /** `startTimer`: one update, then the interval is set, unless the
        update threw. */
    method StartTimer(now: int) returns (threw: bool)
      modifies this`isExpired, this`running, this`expiredMessageShown, this`hidden,
        this`daysText, this`hoursText, this`minutesText, this`secondsText,
        this`restartPending, this`events
      ensures threw <==> endDate.None?
      ensures running == (!threw || old(running))
      ensures threw ==>
        isExpired == old(isExpired) && events == old(events) && restartPending == old(restartPending) &&
        DisplayIs(old(hidden), old(expiredMessageShown), old(daysText), old(hoursText), old(minutesText), old(secondsText))
      ensures !threw && endDate.value - now <= 0 ==>
        isExpired && events == old(events) + [Expired] && restartPending == (old(restartPending) || config.autoRestart) &&
        ExpiredDisplay(old(hidden), old(expiredMessageShown), old(daysText), old(hoursText), old(minutesText), old(secondsText))
      ensures !threw && endDate.value - now > 0 ==>
        isExpired == old(isExpired) && events == old(events) && restartPending == old(restartPending) &&
        hidden == old(hidden) && expiredMessageShown == old(expiredMessageShown) &&
        Counting(Decompose(endDate.value - now), old(daysText), old(hoursText), old(minutesText), old(secondsText))
    {
      threw := UpdateTimer(now);
      if threw {
        return;
      }
      running := true;
    }

    /** `stopTimer`. */
    method StopTimer()
      modifies this`running
      ensures !running
    {
      running := false;
    }

    /** `restartTimer` at time `now`: without auto-restart or a parsed date
        it does nothing; otherwise the end date becomes the parsed date plus
        the restart interval (so every restart gives the same end date), the
        expiry is undone, the timer is started again and the restarted
        event carries the new end date. The expired message is hidden and,
        when the timer hides on expiry, the timer is shown again, before the
        update that may find the new end date already past. */
    method RestartTimer(now: int)
      requires Valid()
      modifies this`restartPending, this`endDate, this`isExpired, this`running, this`events,
        this`hidden, this`expiredMessageShown, this`daysText, this`hoursText, this`minutesText, this`secondsText
      ensures Valid()
      ensures !old(config.autoRestart) || old(initialEndDate).None? ==>
        endDate == old(endDate) && isExpired == old(isExpired) && events == old(events) &&
        running == old(running) && restartPending == old(restartPending) &&
        DisplayIs(old(hidden), old(expiredMessageShown), old(daysText), old(hoursText), old(minutesText), old(secondsText))
      ensures old(config.autoRestart) && old(initialEndDate).Some? ==>
        var newEnd := old(initialEndDate).value + old(config.restartInterval);
        var hides := !config.hideWhenExpired && old(hidden);
        var message := !hasExpiredMessage && old(expiredMessageShown);
        endDate == Some(newEnd) && running && (restartPending <==> newEnd - now <= 0) &&
        (newEnd - now > 0 ==>
          !isExpired && events == old(events) + [Restarted(newEnd)] &&
          hidden == hides && expiredMessageShown == message &&
          Counting(Decompose(newEnd - now), old(daysText), old(hoursText), old(minutesText), old(secondsText))) &&
        (newEnd - now <= 0 ==>
          isExpired && events == old(events) + [Expired, Restarted(newEnd)] &&
          ExpiredDisplay(hides, message, old(daysText), old(hoursText), old(minutesText), old(secondsText)))
      ensures initialEndDate == old(initialEndDate) && config == old(config)
    {
      if !config.autoRestart || initialEndDate.None? {
        return;
      }
      ResetExpiry(initialEndDate.value + config.restartInterval);
      var _ := StartTimer(now);
      events := events + [Restarted(endDate.value)];
    }

    /** The first half of `restartTimer`: the new end date is set, the
        expiry undone, the expired message hidden and, when the timer hides
        on expiry, the timer shown again. */
    method ResetExpiry(newEnd: int)
      modifies this`restartPending, this`endDate, this`isExpired, this`expiredMessageShown, this`hidden
      ensures !restartPending && endDate == Some(newEnd) && !isExpired
      ensures expiredMessageShown == (!hasExpiredMessage && old(expiredMessageShown))
      ensures hidden == (!config.hideWhenExpired && old(hidden))
    {
      restartPending := false;
      endDate := Some(newEnd);
      isExpired := false;
      if hasExpiredMessage {
        expiredMessageShown := false;
      }
      if config.hideWhenExpired {
        hidden := false;
      }
    }
  }
}
