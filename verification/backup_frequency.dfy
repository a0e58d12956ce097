/** Backup schedules given as a frequency: which frequencies are accepted, the cron expression made from one, and
    what that expression means. */
module BackupFrequency {
  import opened Wrappers

  // ------------------------------------------------------------ cron expressions

  /** A field of a cron expression: `*`, `n`, `n/step` or `*` with a step. */
  datatype Field = Any | At(n: int) | From(first: int, step: int) | Every(step: int)

  /** An expression whose month and day-of-week fields are `*`. */
  datatype Cron = Cron(minute: Field, hour: Field, day: Field)

  const MAX_MINUTE := 59
  const MAX_HOUR := 23
  const MIN_DAY := 1
  const MAX_DAY := 31

  predicate FieldParses(f: Field, min: int, max: int)
  {
    match f
    case Any => true
    case At(n) => min <= n <= max
    case From(n, step) => min <= n <= max && step > 0
    case Every(step) => step > 0
  }

  predicate Parses(e: Cron)
  {
    && FieldParses(e.minute, 0, MAX_MINUTE)
    && FieldParses(e.hour, 0, MAX_HOUR)
    && FieldParses(e.day, MIN_DAY, MAX_DAY)
  }

  /** The values a field selects; `n/step` counts from n through the maximum of the field. */
  predicate Selects(f: Field, min: int, max: int, v: int)
    requires FieldParses(f, min, max)
  {
    match f
    case Any => min <= v <= max
    case At(n) => v == n
    case From(n, step) => n <= v <= max && (v - n) % step == 0
    case Every(step) => min <= v <= max && (v - min) % step == 0
  }

  /** Whether an expression fires at the start of minute `t`, counted from the first of January 1970, UTC;
      `dayOfMonth` is the calendar. */
  predicate Fires(e: Cron, dayOfMonth: int -> int, t: int)
    requires Parses(e)
  {
    && Selects(e.minute, 0, MAX_MINUTE, t % 60)
    && Selects(e.hour, 0, MAX_HOUR, t / 60 % 24)
    && Selects(e.day, MIN_DAY, MAX_DAY, dayOfMonth(t / 1440))
  }

  /** What is used of the calendar: days 0, 31 and 59 are the first of January, of February and of March 1970. */
  ghost predicate Calendar(dayOfMonth: int -> int)
  {
    && (forall d :: MIN_DAY <= dayOfMonth(d) <= MAX_DAY)
    && dayOfMonth(0) == 1 && dayOfMonth(31) == 1 && dayOfMonth(59) == 1
  }

  // ------------------------------------------------------------ accepted frequencies

  /** A duration is a number of nanoseconds. */
  const MINUTE := 60_000_000_000

  datatype FrequencyError =
    | TooShort
    | NotWholeMinutes
    | NotDividingAnHour
    | NotWholeHours
    | NotDividingADay
    | TooLong
    | OffsetOutOfRange
    | InvalidCron

  /** The conversion of a duration to minutes truncates toward zero. */
  function TruncatedMinutes(duration: int): int
  {
    if duration >= 0 then duration / MINUTE else -(-duration / MINUTE)
  }

  function ValidateBackupFrequency(frequency: int): Option<FrequencyError>
  {
    var totalMinutes := TruncatedMinutes(frequency);
    if totalMinutes < 1 then Some(TooShort)
    else if frequency != totalMinutes * MINUTE then Some(NotWholeMinutes)
    else if totalMinutes < 60 then
      if 60 % totalMinutes != 0 then Some(NotDividingAnHour) else None
    else if totalMinutes < 1440 then
      if totalMinutes % 60 != 0 then Some(NotWholeHours)
      else if 24 % (totalMinutes / 60) != 0 then Some(NotDividingADay)
      else None
    else if totalMinutes == 1440 then None
    else Some(TooLong)
  }

  // ------------------------------------------------------------ generated expressions

  function CronFromInterval(totalMinutes: int, offsetMinutes: int): Result<Cron, FrequencyError>
  {
    if totalMinutes < 1 then Err(TooShort)
    else if offsetMinutes < 0 || offsetMinutes >= totalMinutes then Err(OffsetOutOfRange)
    else
      var e :=
        if totalMinutes >= 1440 && totalMinutes % 1440 == 0 then
          var dayOffset := offsetMinutes % 1440;
          var hh, mm := dayOffset / 60, dayOffset % 60;
          if totalMinutes == 1440 then Cron(At(mm), At(hh), Any)
          else Cron(At(mm), At(hh), Every(totalMinutes / 1440))
        else if totalMinutes >= 60 && totalMinutes % 60 == 0 then
          var stepHours := totalMinutes / 60;
          var mm, startHour := offsetMinutes % 60, offsetMinutes / 60 % stepHours;
          if stepHours == 1 then Cron(At(mm), Any, Any)
          else Cron(At(mm), From(startHour, stepHours), Any)
        else if totalMinutes < 60 then
          Cron(From(offsetMinutes % totalMinutes, totalMinutes), Any, Any)
        else
          Cron(At(offsetMinutes % 60), At(offsetMinutes / 60), Any);
      if Parses(e) then Ok(e) else Err(InvalidCron)
  }

  /** Whose schedule it is: the inputs of the offset, besides the interval. */
  datatype Identity = Identity(cluster: string, keyspace: string, shard: string, scheduleName: string) {
    function Text(): string
    {
      cluster + "|" + keyspace + "|" + shard + "|" + scheduleName
    }
  }

  /** `hash` is the first eight bytes of the SHA-256 sum of a string, read as an unsigned number. */
  function GenerateCronFromFrequency(frequency: int, identity: Identity, hash: string -> nat)
    : Result<Cron, FrequencyError>
  {
    match ValidateBackupFrequency(frequency)
    case Some(error) => Err(error)
    case None =>
      var totalMinutes := TruncatedMinutes(frequency);
      if totalMinutes < 1 then Err(TooShort)
      else CronFromInterval(totalMinutes, hash(identity.Text()) % totalMinutes)
  }

  /** The expression for `offset` fires at exactly the minutes that are `offset` modulo the interval. */
  ghost predicate Periodic(totalMinutes: int, offset: int, dayOfMonth: int -> int)
    requires totalMinutes >= 1
  {
    var r := CronFromInterval(totalMinutes, offset);
    r.Ok? && forall t: int :: Fires(r.value, dayOfMonth, t) <==> t % totalMinutes == offset
  }

  // ------------------------------------------------------------ arithmetic

  lemma MultipleIsFar(n: int, d: int)
    requires n > 0 && d != 0
    ensures n * d >= n || n * d <= -n
  {
    if d > 0 {
      assert n * (d - 1) >= 0;
    } else {
      assert n * (-1 - d) >= 0;
    }
  }

  lemma ModIsRemainder(v: int, n: int, q: int, r: int)
    requires n > 0 && 0 <= r < n && v == n * q + r
    ensures v % n == r && v / n == q
  {
    var d := v / n - q;
    assert n * d == n * (v / n) - n * q == r - v % n;
    if d != 0 {
      MultipleIsFar(n, d);
      assert false;
    }
  }

  /** Stepping by `n` from `first` reaches exactly the later values with the same remainder. */
  lemma StepsFrom(v: int, first: int, n: int)
    requires n > 0 && 0 <= first < n && v >= 0
    ensures v >= first && (v - first) % n == 0 <==> v % n == first
  {
    if v >= first && (v - first) % n == 0 {
      assert v - first == n * ((v - first) / n);
      ModIsRemainder(v, n, (v - first) / n, first);
    }
    if v % n == first {
      assert v == n * (v / n) + first;
      assert n * (v / n) >= 0 by {
        assert v / n >= 0;
      }
      ModIsRemainder(v - first, n, v / n, 0);
    }
  }

  /** Reducing modulo a multiple of `n` first does not change the remainder modulo `n`. */
  lemma ModOfMultiple(t: int, big: int, n: int)
    requires n > 0 && big > 0 && big % n == 0
    ensures t % big % n == t % n
  {
    var q, k := t % big / n, big / n;
    assert big == n * k;
    assert t == big * (t / big) + t % big;
    assert t % big == n * q + t % big % n;
    assert n * k * (t / big) == n * (k * (t / big));
    assert n * (k * (t / big)) + n * q == n * (k * (t / big) + q);
    ModIsRemainder(t, n, k * (t / big) + q, t % big % n);
  }

  /** Minutes modulo whole hours. */
  lemma ModOfHours(t: int, hours: int)
    requires hours > 0
    ensures t % (60 * hours) == 60 * (t / 60 % hours) + t % 60
  {
    var q, h := t / 60 / hours, t / 60 % hours;
    assert t / 60 == hours * q + h;
    assert 60 * (hours * q) == 60 * hours * q;
    ModIsRemainder(t, 60 * hours, q, 60 * h + t % 60);
  }

  // ------------------------------------------------------------ accepted intervals are exact

  ghost predicate Accepted(totalMinutes: int)
  {
    ValidateBackupFrequency(totalMinutes * MINUTE).None?
  }

  lemma SubHourly(n: int, o: int, dayOfMonth: int -> int)
    requires 1 <= n < 60 && 60 % n == 0 && 0 <= o < n && Calendar(dayOfMonth)
    ensures Periodic(n, o, dayOfMonth)
  {
    ModIsRemainder(o, n, 0, o);
    var e := Cron(From(o, n), Any, Any);
    assert CronFromInterval(n, o) == Ok(e);
    forall t: int
      ensures Fires(e, dayOfMonth, t) <==> t % n == o
    {
      StepsFrom(t % 60, o, n);
      ModOfMultiple(t, 60, n);
    }
  }

  lemma Hourly(hours: int, o: int, dayOfMonth: int -> int)
    requires 1 <= hours < 24 && 24 % hours == 0 && 0 <= o < 60 * hours && Calendar(dayOfMonth)
    ensures Periodic(60 * hours, o, dayOfMonth)
  {
    ModIsRemainder(o / 60, hours, 0, o / 60);
    var e := if hours == 1 then Cron(At(o % 60), Any, Any) else Cron(At(o % 60), From(o / 60, hours), Any);
    assert CronFromInterval(60 * hours, o) == Ok(e);
    forall t: int
      ensures Fires(e, dayOfMonth, t) <==> t % (60 * hours) == o
    {
      StepsFrom(t / 60 % 24, o / 60, hours);
      ModOfMultiple(t / 60, 24, hours);
      ModOfHours(t, hours);
    }
  }

  lemma Daily(o: int, dayOfMonth: int -> int)
    requires 0 <= o < 1440 && Calendar(dayOfMonth)
    ensures Periodic(1440, o, dayOfMonth)
  {
    var e := Cron(At(o % 60), At(o / 60), Any);
    assert CronFromInterval(1440, o) == Ok(e);
    forall t: int
      ensures Fires(e, dayOfMonth, t) <==> t % 1440 == o
    {
      ModOfHours(t, 24);
    }
  }

  lemma AcceptedIntervals(n: int)
    requires n >= 1
    ensures Accepted(n) <==> (n < 60 && 60 % n == 0) || n == 1440
                             || (60 <= n < 1440 && n % 60 == 0 && 24 % (n / 60) == 0)
  {
    assert TruncatedMinutes(n * MINUTE) == n;
  }

  lemma AcceptedIsPeriodic(n: int, o: int, dayOfMonth: int -> int)
    requires Accepted(n) && 0 <= o < n && Calendar(dayOfMonth)
    ensures Periodic(n, o, dayOfMonth)
  {
    AcceptedIntervals(n);
    hide Accepted, Periodic, Calendar;
    if n < 60 {
      SubHourly(n, o, dayOfMonth);
    } else if n < 1440 {
      Hourly(n / 60, o, dayOfMonth);
    } else {
      Daily(o, dayOfMonth);
    }
  }

  // ------------------------------------------------------------ other intervals are not

  /** What goes wrong with a refused interval, whatever the offset: there is no expression, or there is a minute at
      which it fires but should not, or does not but should. */
  lemma RefusedMisfires(n: int, o: int, dayOfMonth: int -> int) returns (t: int)
    requires n >= 1 && !Accepted(n) && 0 <= o < n && Calendar(dayOfMonth)
    ensures var r := CronFromInterval(n, o);
            r.Err? || Fires(r.value, dayOfMonth, t) != (t % n == o)
  {
    AcceptedIntervals(n);
    hide Accepted;
    if CronFromInterval(n, o).Err? {
      t := 0;
    } else if n < 60 {
      t := RestartsEveryHour(n, o, dayOfMonth);
    } else if n % 1440 == 0 {
      t := EveryFewDays(n, o, dayOfMonth);
    } else if n % 60 == 0 {
      FailsExactly(n, o);
      NotDividing(n);
      t := RestartsEveryDay(n, o, dayOfMonth);
    } else if n < 1440 {
      t := SkipsTheInterval(n, o, dayOfMonth);
    } else {
      FailsExactly(n, o);
      ModIsRemainder(1440, n, 0, 1440);
      t := RestartsEveryDay(n, o, dayOfMonth);
    }
  }

  lemma RestartsEveryHour(n: int, o: int, dayOfMonth: int -> int) returns (t: int)
    requires 0 <= o < n < 60 && 60 % n != 0 && Calendar(dayOfMonth)
    ensures CronFromInterval(n, o) == Ok(Cron(From(o, n), Any, Any))
    ensures Fires(Cron(From(o, n), Any, Any), dayOfMonth, t) && t % n != o
  {
    ModIsRemainder(o, n, 0, o);
    t := o + 60;
    ShiftedMod(o, 60, n);
    assert (t % 60 - o) % n == 0 by {
      ModIsRemainder(0, n, 0, 0);
    }
  }

  /** A multiple of `n` is all that can be added without changing the remainder. */
  lemma ShiftedMod(o: int, shift: int, n: int)
    requires 0 <= o < n
    ensures (o + shift) % n == o <==> shift % n == 0
  {
    var q, p := (o + shift) / n, shift / n;
    assert o + shift == n * q + (o + shift) % n && shift == n * p + shift % n;
    if (o + shift) % n == o {
      ModIsRemainder(shift, n, q, 0);
    }
    if shift % n == 0 {
      ModIsRemainder(o + shift, n, p, o);
    }
  }

  lemma DayLater(o: int)
    requires 0 <= o < 1440
    ensures (o + 1440) % 60 == o % 60 && (o + 1440) / 60 % 24 == o / 60
  {
  }

  lemma RestartsEveryDay(n: int, o: int, dayOfMonth: int -> int) returns (t: int)
    requires n > 60 && n % 1440 != 0 && 1440 % n != 0 && 0 <= o < n && o < 1440 && Calendar(dayOfMonth)
    ensures CronFromInterval(n, o).Ok?
    ensures Fires(CronFromInterval(n, o).value, dayOfMonth, t) && t % n != o
  {
    t := o + 1440;
    ShiftedMod(o, 1440, n);
    DayLater(o);
    if n % 60 == 0 {
      ModIsRemainder(o / 60, n / 60, 0, o / 60);
      ModIsRemainder(0, n / 60, 0, 0);
      assert CronFromInterval(n, o) == Ok(Cron(At(o % 60), From(o / 60, n / 60), Any));
    } else {
      assert CronFromInterval(n, o) == Ok(Cron(At(o % 60), At(o / 60), Any));
    }
  }

  lemma SkipsTheInterval(n: int, o: int, dayOfMonth: int -> int) returns (t: int)
    requires 60 < n < 1440 && n % 60 != 0 && 0 <= o < n && Calendar(dayOfMonth)
    ensures CronFromInterval(n, o) == Ok(Cron(At(o % 60), At(o / 60), Any))
    ensures !Fires(Cron(At(o % 60), At(o / 60), Any), dayOfMonth, t) && t % n == o
  {
    t := o + n;
    ModIsRemainder(n, n, 1, 0);
    ShiftedMod(o, n, n);
    if Fires(Cron(At(o % 60), At(o / 60), Any), dayOfMonth, t) {
      ModOfHours(t, 24);
      ModOfHours(o, 24);
      assert false;
    }
  }

  lemma NotDividing(n: int)
    requires n >= 60 && n % 60 == 0 && n % 1440 != 0 && (n < 1440 ==> 24 % (n / 60) != 0)
    ensures 1440 % n != 0
  {
    var hours := n / 60;
    assert n == 60 * hours;
    if hours > 24 {
      ModIsRemainder(1440, n, 0, 1440);
    } else {
      ModOfHours(1440, hours);
    }
  }

  /** An expression with a step of days starts again on the first of every month. */
  lemma EveryFewDays(n: int, o: int, dayOfMonth: int -> int) returns (t: int)
    requires n > 1440 && n % 1440 == 0 && 0 <= o < n && Calendar(dayOfMonth)
    ensures var e := Cron(At(o % 1440 % 60), At(o % 1440 / 60), Every(n / 1440));
            CronFromInterval(n, o) == Ok(e) && Fires(e, dayOfMonth, t) && t % n != o
  {
    var days, daily := n / 1440, o % 1440;
    assert n == 1440 * days;
    ModIsRemainder(0, days, 0, 0);
    if daily != o {
      t := daily;
      ModIsRemainder(t, n, 0, t);
    } else if 31 % days != 0 {
      t := o + 31 * 1440;
      ScaledMod(31, days);
      ShiftedMod(o, 31 * 1440, n);
    } else {
      t := o + 59 * 1440;
      ScaledMod(59, days);
      assert 59 % days != 0 by {
        if 59 % days == 0 {
          DividesJanuaryAndFebruary(days);
          ModIsRemainder(1, days, 0, 1);
          assert false;
        }
      }
      ShiftedMod(o, 59 * 1440, n);
    }
    FirstOfMonth(daily, t, dayOfMonth);
  }

  lemma FirstOfMonth(daily: int, t: int, dayOfMonth: int -> int)
    requires 0 <= daily < 1440 && (t == daily || t == daily + 31 * 1440 || t == daily + 59 * 1440)
    requires Calendar(dayOfMonth)
    ensures t % 60 == daily % 60 && t / 60 % 24 == daily / 60 && dayOfMonth(t / 1440) == MIN_DAY
  {
  }

  lemma DividesJanuaryAndFebruary(days: int)
    requires days > 0 && 31 % days == 0 && 59 % days == 0
    ensures 1 % days == 0
  {
    var q, p := 31 / days, 59 / days;
    assert days * (10 * p - 19 * q) == 10 * (days * p) - 19 * (days * q) == 1;
    ModIsRemainder(1, days, 10 * p - 19 * q, 0);
  }

  lemma ScaledMod(d: int, days: int)
    requires days > 0
    ensures d * 1440 % (1440 * days) == 0 <==> d % days == 0
  {
    var q, r := d / days, d % days;
    assert d == days * q + r;
    assert d * 1440 == 1440 * days * q + 1440 * r;
    ModIsRemainder(d * 1440, 1440 * days, q, 1440 * r);
  }

  // ------------------------------------------------------------ main results

  /** Validation accepts exactly the intervals whose expressions are periodic for every offset; for those that it
      refuses, they are so for no offset at all. */
  lemma AcceptedExactlyWhenPeriodic(n: int, dayOfMonth: int -> int)
    requires n >= 1 && Calendar(dayOfMonth)
    ensures Accepted(n) <==> forall o | 0 <= o < n :: Periodic(n, o, dayOfMonth)
    ensures Accepted(n) <==> exists o | 0 <= o < n :: Periodic(n, o, dayOfMonth)
  {
    forall o | 0 <= o < n
      ensures Periodic(n, o, dayOfMonth) <==> Accepted(n)
    {
      if Accepted(n) {
        AcceptedIsPeriodic(n, o, dayOfMonth);
      } else {
        var t := RefusedMisfires(n, o, dayOfMonth);
      }
    }
    hide Periodic, Accepted;
    assert Periodic(n, 0, dayOfMonth) <==> Accepted(n);
  }

  /** Only whole positive numbers of minutes are accepted. */
  lemma AcceptedIsWhole(frequency: int)
    ensures ValidateBackupFrequency(frequency).None?
       <==> exists n :: frequency == n * MINUTE && n >= 1 && Accepted(n)
  {
    if ValidateBackupFrequency(frequency).None? {
      var n := TruncatedMinutes(frequency);
      assert frequency == n * MINUTE && n >= 1 && Accepted(n);
    }
  }

  /** Every accepted frequency gives an expression, whatever the hash, and it fires exactly once in any stretch of
      minutes that is one interval long. */
  lemma GeneratedFiresOncePerInterval(frequency: int, identity: Identity, hash: string -> nat, dayOfMonth: int -> int,
                                      start: int)
    requires ValidateBackupFrequency(frequency).None? && Calendar(dayOfMonth)
    ensures GenerateCronFromFrequency(frequency, identity, hash).Ok?
    ensures var e := GenerateCronFromFrequency(frequency, identity, hash).value;
            exists t :: start <= t < start + frequency / MINUTE && Fires(e, dayOfMonth, t)
                        && forall u :: start <= u < start + frequency / MINUTE && Fires(e, dayOfMonth, u) ==> u == t
  {
    var n := TruncatedMinutes(frequency);
    var o := hash(identity.Text()) % n;
    AcceptedIsWhole(frequency);
    assert frequency / MINUTE == n;
    AcceptedIsPeriodic(n, o, dayOfMonth);
    var e := CronFromInterval(n, o).value;
    assert GenerateCronFromFrequency(frequency, identity, hash) == Ok(e);
    hide ValidateBackupFrequency, CronFromInterval, GenerateCronFromFrequency, Calendar, Fires;
    var t := OneRepresentative(n, o, start);
    assert Fires(e, dayOfMonth, t);
  }

  /** For a refused frequency there is no expression, although one could be made for some of them. */
  lemma RefusedIsNotGenerated(frequency: int, identity: Identity, hash: string -> nat)
    requires frequency % MINUTE != 0 || !Accepted(frequency / MINUTE)
    ensures GenerateCronFromFrequency(frequency, identity, hash).Err?
  {
    if ValidateBackupFrequency(frequency).None? {
      AcceptedIsWhole(frequency);
    }
  }

  /** The offset is the hash of the identity modulo the interval: the expression fires at exactly these minutes. */
  lemma GeneratedFiresAtItsOffset(frequency: int, cluster: string, keyspace: string, shard: string, name: string,
                                  hash: string -> nat, dayOfMonth: int -> int, t: int)
    requires ValidateBackupFrequency(frequency).None? && Calendar(dayOfMonth)
    ensures frequency / MINUTE >= 1
    ensures var r := GenerateCronFromFrequency(frequency, Identity(cluster, keyspace, shard, name), hash);
            && r.Ok?
            && (Fires(r.value, dayOfMonth, t)
                <==> t % (frequency / MINUTE)
                     == hash(cluster + "|" + keyspace + "|" + shard + "|" + name) % (frequency / MINUTE))
  {
    var n := TruncatedMinutes(frequency);
    AcceptedIsWhole(frequency);
    assert frequency / MINUTE == n;
    var o := hash(cluster + "|" + keyspace + "|" + shard + "|" + name) % n;
    AcceptedIsPeriodic(n, o, dayOfMonth);
    hide ValidateBackupFrequency, CronFromInterval, Calendar, Fires;
  }

  /** Shards whose hashes differ modulo the interval are never backed up at the same minute. */
  lemma IdentitiesAreStaggered(frequency: int, a: Identity, b: Identity, hash: string -> nat, dayOfMonth: int -> int,
                               t: int)
    requires ValidateBackupFrequency(frequency).None? && Calendar(dayOfMonth) && frequency / MINUTE >= 1
    requires hash(a.cluster + "|" + a.keyspace + "|" + a.shard + "|" + a.scheduleName) % (frequency / MINUTE)
          != hash(b.cluster + "|" + b.keyspace + "|" + b.shard + "|" + b.scheduleName) % (frequency / MINUTE)
    ensures var r, q := GenerateCronFromFrequency(frequency, a, hash), GenerateCronFromFrequency(frequency, b, hash);
            r.Ok? && q.Ok? && !(Fires(r.value, dayOfMonth, t) && Fires(q.value, dayOfMonth, t))
  {
    GeneratedFiresAtItsOffset(frequency, a.cluster, a.keyspace, a.shard, a.scheduleName, hash, dayOfMonth, t);
    GeneratedFiresAtItsOffset(frequency, b.cluster, b.keyspace, b.shard, b.scheduleName, hash, dayOfMonth, t);
    assert a == Identity(a.cluster, a.keyspace, a.shard, a.scheduleName);
    assert b == Identity(b.cluster, b.keyspace, b.shard, b.scheduleName);
    hide ValidateBackupFrequency, GenerateCronFromFrequency, Calendar, Fires;
  }

  lemma OneRepresentative(n: int, o: int, start: int) returns (t: int)
    requires 0 <= o < n
    ensures start <= t < start + n && t % n == o
    ensures forall u :: start <= u < start + n && u % n == o ==> u == t
  {
    var q := (o - start) / n;
    t := start + (o - start) % n;
    assert t == n * -q + o;
    ModIsRemainder(t, n, -q, o);
    forall u | start <= u < start + n && u % n == o
      ensures u == t
    {
      SameRemainder(t, u, n);
    }
  }

  lemma SameRemainder(t: int, u: int, n: int)
    requires n > 0 && t % n == u % n && -n < t - u < n
    ensures t == u
  {
    var k := t / n - u / n;
    assert t - u == n * k by {
      assert t == n * (t / n) + t % n && u == n * (u / n) + u % n;
    }
    if k >= 1 {
      assert n * k >= n;
    } else if k <= -1 {
      assert n * k <= -n;
    }
  }

  /** Schedules of one frequency with different offsets never fire together. */
  lemma StaggeredNeverCoincide(n: int, o1: int, o2: int, dayOfMonth: int -> int, t: int)
    requires Accepted(n) && 0 <= o1 < n && 0 <= o2 < n && o1 != o2 && Calendar(dayOfMonth)
    ensures CronFromInterval(n, o1).Ok? && CronFromInterval(n, o2).Ok?
    ensures !(Fires(CronFromInterval(n, o1).value, dayOfMonth, t)
              && Fires(CronFromInterval(n, o2).value, dayOfMonth, t))
  {
    AcceptedIsPeriodic(n, o1, dayOfMonth);
    AcceptedIsPeriodic(n, o2, dayOfMonth);
  }

  /** Called on its own, the generator fails exactly on offsets outside the interval, and on offsets beyond one day
      when the interval is not a number of days. */
  lemma FailsExactly(n: int, o: int)
    ensures CronFromInterval(n, o).Err? <==> !(0 <= o < n) || (o >= 1440 && n % 1440 != 0)
  {
    if 0 <= o < n && n >= 60 && n % 60 == 0 && n % 1440 != 0 {
      ModIsRemainder(o / 60, n / 60, 0, o / 60);
    }
  }
}
