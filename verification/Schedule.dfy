/** When a scheduled job runs next, in a zone with a fixed offset. Times are nanoseconds. */
module Schedule {
  import opened Wrappers

  const MINUTE: int := 60_000_000_000
  const DAY: int := 86_400_000_000_000

  datatype ScheduleRule =
    | Interval(minutes: nat)
    | Daily(hour: nat, minute: nat)
    | Weekly(days: seq<nat>, hour: nat, minute: nat)

  datatype ScheduleConfig = ScheduleConfig(enabled: bool, zoneKnown: bool, rule: ScheduleRule)

  datatype ScheduleError = BadZone | BadInterval | BadDays | BadTime

  function Validate(config: ScheduleConfig): Result<(), ScheduleError> {
    if !config.enabled then Ok(())
    else if !config.zoneKnown then Err(BadZone)
    else match config.rule
      case Interval(minutes) => if minutes == 0 then Err(BadInterval) else Ok(())
      case Daily(hour, minute) => if hour > 23 || minute > 59 then Err(BadTime) else Ok(())
      case Weekly(days, hour, minute) =>
        if days == [] || exists d <- days :: d > 6 then Err(BadDays)
        else if hour > 23 || minute > 59 then Err(BadTime) else Ok(())
  }

  /** Days from Sunday; day 0 was a Thursday. */
  function Weekday(day: int): nat {
    (day + 4) % 7
  }

  function TimeOfDay(hour: nat, minute: nat): int {
    (hour * 60 + minute) * MINUTE
  }

  /** The instant at a time of a day, unless there is no such time. */
  function At(day: int, hour: nat, minute: nat): Option<int> {
    if hour > 23 || minute > 59 then None else Some(day * DAY + TimeOfDay(hour, minute))
  }

  /** The weekly search from the `k`th of eight days on. */
  function WeeklyFrom(local: int, days: seq<nat>, hour: nat, minute: nat, k: nat): Option<int>
    requires k <= 8
    decreases 8 - k
  {
    if k == 8 then None
    else
      var day := local / DAY + k;
      if Weekday(day) !in days then WeeklyFrom(local, days, hour, minute, k + 1)
      else match At(day, hour, minute)
        case None => None
        case Some(dt) => if dt > local then Some(dt) else WeeklyFrom(local, days, hour, minute, k + 1)
  }

  function NextLocal(local: int, rule: ScheduleRule): Option<int> {
    match rule
    case Interval(minutes) => Some(local + minutes * MINUTE)
    case Daily(hour, minute) =>
      (match At(local / DAY, hour, minute)
       case None => None
       case Some(dt) => if dt <= local then At(local / DAY + 1, hour, minute) else Some(dt))
    case Weekly(days, hour, minute) => WeeklyFrom(local, days, hour, minute, 0)
  }

  function ComputeNextRun(config: ScheduleConfig, offset: int, from: int): Option<int> {
    if !config.enabled then None
    else match NextLocal(from + offset, config.rule)
      case None => None
      case Some(local) => Some(local - offset)
  }

  method NextRun(config: ScheduleConfig, offset: int, from: int) returns (r: Option<int>)
    requires config.enabled
    ensures r == ComputeNextRun(config, offset, from)
  {
    var local := from + offset;
    match config.rule
    case Interval(minutes) => return Some(from + minutes * MINUTE);
    case Daily(hour, minute) =>
      var day := local / DAY;
      var candidate := At(day, hour, minute);
      if candidate.None? {
        return None;
      }
      if candidate.value <= local {
        day := day + 1;
        candidate := At(day, hour, minute);
      }
      return Some(candidate.value - offset);
    case Weekly(days, hour, minute) =>
      var next := NextWeekly(local, days, hour, minute);
      return match next case None => None case Some(dt) => Some(dt - offset);
  }

  method NextWeekly(local: int, days: seq<nat>, hour: nat, minute: nat) returns (r: Option<int>)
    ensures r == WeeklyFrom(local, days, hour, minute, 0)
  {
    for k := 0 to 8
      invariant WeeklyFrom(local, days, hour, minute, 0) == WeeklyFrom(local, days, hour, minute, k)
    {
      var day := local / DAY + k;
      if Weekday(day) !in days {
        continue;
      }
      var dt := At(day, hour, minute);
      if dt.None? {
        return None;
      }
      if dt.value > local {
        return dt;
      }
    }
    return None;
  }

  // ---- scheduled instants ----

  /** Whether a Daily or Weekly rule names a local instant: its time of day on one of its days. */
  predicate Names(rule: ScheduleRule, local: int)
    requires !rule.Interval?
  {
    && local % DAY == TimeOfDay(rule.hour, rule.minute)
    && (rule.Weekly? ==> Weekday(local / DAY) in rule.days)
  }

  predicate Scheduled(config: ScheduleConfig, offset: int, t: int)
    requires !config.rule.Interval?
  {
    Names(config.rule, t + offset)
  }

  lemma AtMeaning(day: int, hour: nat, minute: nat)
    requires hour <= 23 && minute <= 59
    ensures At(day, hour, minute).Some?
    ensures At(day, hour, minute).value / DAY == day
    ensures At(day, hour, minute).value % DAY == TimeOfDay(hour, minute)
  {
    var t := TimeOfDay(hour, minute);
    assert 0 <= t < DAY;
    assert day * DAY <= day * DAY + t < (day + 1) * DAY;
  }

  /** The `k`th day from today is one of the rule's and its instant is later than `local`. */
  predicate Hit(local: int, days: seq<nat>, hour: nat, minute: nat, k: nat) {
    Weekday(local / DAY + k) in days && (local / DAY + k) * DAY + TimeOfDay(hour, minute) > local
  }

  /** The search stops at the first hit. */
  lemma {:induction false} WeeklyFinds(local: int, days: seq<nat>, hour: nat, minute: nat, k: nat, hit: nat) returns (first: nat)
    requires hour <= 23 && minute <= 59 && k <= hit < 8 && Hit(local, days, hour, minute, hit)
    ensures k <= first <= hit && Hit(local, days, hour, minute, first)
    ensures forall j: nat :: k <= j < first ==> !Hit(local, days, hour, minute, j)
    ensures WeeklyFrom(local, days, hour, minute, k) == At(local / DAY + first, hour, minute)
    decreases 8 - k
  {
    if Hit(local, days, hour, minute, k) {
      first := k;
    } else {
      first := WeeklyFinds(local, days, hour, minute, k + 1, hit);
    }
  }

  /** An instant the rule names between now and the `k`th day's is that of an earlier hit. */
  lemma NamedIsHit(local: int, days: seq<nat>, hour: nat, minute: nat, k: nat, s: int) returns (j: nat)
    requires Names(Weekly(days, hour, minute), s)
    requires local < s < (local / DAY + k) * DAY + TimeOfDay(hour, minute)
    ensures j < k && Hit(local, days, hour, minute, j)
  {
    assert s == (s / DAY) * DAY + TimeOfDay(hour, minute);
    assert s / DAY >= local / DAY;
    j := s / DAY - local / DAY;
  }

  /** One of the eight days always has an instant later than now, at most a week away. */
  lemma EightDaysSuffice(local: int, days: seq<nat>, hour: nat, minute: nat) returns (hit: nat)
    requires hour <= 23 && minute <= 59 && days != [] && forall d <- days :: d <= 6
    ensures hit < 8 && Hit(local, days, hour, minute, hit)
    ensures (local / DAY + hit) * DAY + TimeOfDay(hour, minute) <= local + 7 * DAY
  {
    var day := local / DAY;
    assert day * DAY <= local < (day + 1) * DAY;
    assert 0 <= TimeOfDay(hour, minute) < DAY;
    assert days[0] in days;
    var ahead := DaysAhead(day, days[0]);
    if ahead == 0 && day * DAY + TimeOfDay(hour, minute) <= local {
      hit := 7;
    } else {
      hit := ahead;
    }
  }

  /** How many days ahead a weekday comes next; a week later it comes again. */
  lemma DaysAhead(day: int, weekday: nat) returns (ahead: nat)
    requires weekday <= 6
    ensures ahead <= 6 && Weekday(day + ahead) == weekday == Weekday(day + ahead + 7)
  {
    ahead := (weekday + 7 - Weekday(day)) % 7;
  }

  lemma DailyNext(local: int, hour: nat, minute: nat)
    requires hour <= 23 && minute <= 59
    ensures var rule := Daily(hour, minute); var r := NextLocal(local, rule);
            && r.Some? && local < r.value <= local + DAY && Names(rule, r.value)
            && forall s :: local < s < r.value ==> !Names(rule, s)
  {
    var rule, day := Daily(hour, minute), local / DAY;
    AtMeaning(day, hour, minute);
    AtMeaning(day + 1, hour, minute);
    var t := NextLocal(local, rule).value;
    forall s | local < s < t ensures !Names(rule, s) {
      assert s == (s / DAY) * DAY + s % DAY;
    }
  }

  lemma WeeklyNext(local: int, days: seq<nat>, hour: nat, minute: nat)
    requires hour <= 23 && minute <= 59 && days != [] && forall d <- days :: d <= 6
    ensures var rule := Weekly(days, hour, minute); var r := NextLocal(local, rule);
            && r.Some? && local < r.value <= local + 7 * DAY && Names(rule, r.value)
            && forall s :: local < s < r.value ==> !Names(rule, s)
  {
    var rule := Weekly(days, hour, minute);
    var hit := EightDaysSuffice(local, days, hour, minute);
    var k := WeeklyFinds(local, days, hour, minute, 0, hit);
    AtMeaning(local / DAY + k, hour, minute);
    var t := NextLocal(local, rule).value;
    forall s | local < s < t ensures !Names(rule, s) {
      if Names(rule, s) {
        var j := NamedIsHit(local, days, hour, minute, k, s);
      }
    }
  }

  /** A validated Daily or Weekly rule always has a next run. It is strictly later, at an instant the
      rule names, with none in between, and at most a day or a week away. */
  lemma NextRunExact(config: ScheduleConfig, offset: int, from: int)
    requires config.enabled && Validate(config).Ok? && !config.rule.Interval?
    ensures var r := ComputeNextRun(config, offset, from);
            && r.Some? && from < r.value <= from + (if config.rule.Daily? then DAY else 7 * DAY)
            && Scheduled(config, offset, r.value)
            && forall t :: from < t < r.value ==> !Scheduled(config, offset, t)
  {
    match config.rule
    case Daily(hour, minute) => DailyNext(from + offset, hour, minute);
    case Weekly(days, hour, minute) => WeeklyNext(from + offset, days, hour, minute);
  }

  /** The `n`th run after `from`. */
  function Iterated(config: ScheduleConfig, offset: int, from: int, n: nat): Option<int> {
    if n == 0 then Some(from)
    else match Iterated(config, offset, from, n - 1)
      case None => None
      case Some(t) => ComputeNextRun(config, offset, t)
  }

  lemma {:induction false} IteratedFrom(config: ScheduleConfig, offset: int, from: int, next: int, n: nat)
    requires ComputeNextRun(config, offset, from) == Some(next)
    ensures Iterated(config, offset, from, n + 1) == Iterated(config, offset, next, n)
  {
    if n > 0 {
      IteratedFrom(config, offset, from, next, n - 1);
    }
  }

  /** Iterating reaches every scheduled instant after `from`. */
  lemma {:induction false} IterationReaches(config: ScheduleConfig, offset: int, from: int, t: int) returns (n: nat)
    requires config.enabled && Validate(config).Ok? && !config.rule.Interval?
    requires from < t && Scheduled(config, offset, t)
    ensures n > 0 && Iterated(config, offset, from, n) == Some(t)
    decreases t - from
  {
    NextRunExact(config, offset, from);
    var next := ComputeNextRun(config, offset, from).value;
    if next == t {
      n := 1;
      assert Iterated(config, offset, from, 0) == Some(from);
    } else {
      var m := IterationReaches(config, offset, next, t);
      IteratedFrom(config, offset, from, next, m);
      n := m + 1;
    }
  }

  /** Iterating meets only scheduled instants, ever later; so the runs are the scheduled instants after
      `from`, each once, in order. */
  lemma {:induction false} IterationClimbs(config: ScheduleConfig, offset: int, from: int, n: nat)
    requires config.enabled && Validate(config).Ok? && !config.rule.Interval?
    ensures var r, r' := Iterated(config, offset, from, n), Iterated(config, offset, from, n + 1);
            r.Some? && r'.Some? && r.value < r'.value && Scheduled(config, offset, r'.value)
  {
    if n > 0 {
      IterationClimbs(config, offset, from, n - 1);
    }
    NextRunExact(config, offset, Iterated(config, offset, from, n).value);
  }

  // ---- clock and calendar ----

  const SECOND: int := 1_000_000_000

  /** An instant a rule names shows the rule's hour and minute on the clock, to the second. */
  lemma NamesOnTheClock(rule: ScheduleRule, local: int)
    requires !rule.Interval? && rule.hour <= 23 && rule.minute <= 59 && Names(rule, local)
    ensures var t := local % (24 * 60 * 60 * SECOND);
            t / (60 * 60 * SECOND) == rule.hour && t / (60 * SECOND) % 60 == rule.minute && t % (60 * SECOND) == 0
  {
    var h, m := rule.hour, rule.minute;
    var t := local % DAY;
    assert t == (h * 60 + m) * MINUTE;
    assert t / MINUTE == h * 60 + m;
    assert t / (60 * MINUTE) == h by {
      assert t == h * (60 * MINUTE) + m * MINUTE && 0 <= m * MINUTE < 60 * MINUTE;
    }
  }

  /** The first of January 1970 was a Thursday, and weekdays follow one another. */
  lemma WeekdaysFollow(day: int)
    ensures Weekday(0) == 4 && Weekday(day + 1) == (if Weekday(day) == 6 then 0 else Weekday(day) + 1)
  {
  }

  /** An interval rule runs again after so many minutes; a schedule that is off never does. */
  lemma IntervalNext(config: ScheduleConfig, offset: int, from: int)
    ensures !config.enabled ==> ComputeNextRun(config, offset, from) == None
    ensures config.enabled && config.rule.Interval?
            ==> ComputeNextRun(config, offset, from) == Some(from + config.rule.minutes * 60 * SECOND)
  {
  }

  /** What is validated: a rule that is on needs a known zone, and minutes, or a time of day, and for a
      weekly rule at least one day from Sunday to Saturday. */
  lemma ValidMeaning(config: ScheduleConfig)
    ensures Validate(config).Ok?
            <==> config.enabled ==>
                   && config.zoneKnown
                   && (config.rule.Interval? ==> config.rule.minutes > 0)
                   && (!config.rule.Interval? ==> config.rule.hour < 24 && config.rule.minute < 60)
                   && (config.rule.Weekly? ==> config.rule.days != [] && forall d <- config.rule.days :: d <= 6)
  {
  }
}
