/** Frequencies and missed runs together: schedules made from an accepted frequency. */
module FrequencySchedule {
  import opened Wrappers
  import B = BackupFrequency
  import N = NextSchedule

  /** The first of January 1970, in nanoseconds since the zero time. */
  const EPOCH := 62_135_596_800_000_000_000

  /** Whether an expression fires at an instant. */
  ghost predicate FiresAt(e: B.Cron, dayOfMonth: int -> int, t: nat)
    requires B.Parses(e)
  {
    (t - EPOCH) % B.MINUTE == 0 && B.Fires(e, dayOfMonth, (t - EPOCH) / B.MINUTE)
  }

  ghost function Firings(e: B.Cron, dayOfMonth: int -> int): nat -> bool
    requires B.Parses(e)
  {
    (t: nat) => FiresAt(e, dayOfMonth, t)
  }

  lemma GeneratedParses(frequency: int, id: B.Identity, hash: string -> nat)
    requires B.GenerateCronFromFrequency(frequency, id, hash).Ok?
    ensures B.ValidateBackupFrequency(frequency).None?
    ensures B.Parses(B.GenerateCronFromFrequency(frequency, id, hash).value)
  {
  }

  lemma Aligned(t: int, minute: int, n: int)
    requires t / B.MINUTE < minute <= t / B.MINUTE + n
    ensures t < minute * B.MINUTE <= t + n * B.MINUTE
    ensures minute * B.MINUTE % B.MINUTE == 0 && minute * B.MINUTE / B.MINUTE == minute
  {
  }

  /** Behind every instant there is a firing within one frequency. */
  lemma FiresSoon(frequency: int, id: B.Identity, hash: string -> nat, dayOfMonth: int -> int, t: nat) returns (u: nat)
    requires B.GenerateCronFromFrequency(frequency, id, hash).Ok? && B.Calendar(dayOfMonth)
    ensures B.Parses(B.GenerateCronFromFrequency(frequency, id, hash).value)
    ensures t < u <= t + frequency && FiresAt(B.GenerateCronFromFrequency(frequency, id, hash).value, dayOfMonth, u)
  {
    GeneratedParses(frequency, id, hash);
    var e := B.GenerateCronFromFrequency(frequency, id, hash).value;
    var start := (t - EPOCH) / B.MINUTE + 1;
    B.GeneratedFiresOncePerInterval(frequency, id, hash, dayOfMonth, start);
    B.AcceptedIsWhole(frequency);
    hide B.Fires, B.GenerateCronFromFrequency, B.ValidateBackupFrequency, B.Parses;
    var n := frequency / B.MINUTE;
    var minute :| start <= minute < start + n && B.Fires(e, dayOfMonth, minute);
    Aligned(t - EPOCH, minute, n);
    u := EPOCH + minute * B.MINUTE;
  }

  /** If the search of a schedule looks at least one frequency ahead, a schedule made from a frequency never runs into
      a gap: looking for its missed run fails only if there are too many of them. */
  lemma FailsOnlyOnTooManyMissedRuns(frequency: int, id: B.Identity, hash: string -> nat, dayOfMonth: int -> int,
                                     next: nat -> nat, horizon: nat -> int, spec: N.Spec, start: nat, now: nat)
    requires B.GenerateCronFromFrequency(frequency, id, hash).Ok? && B.Calendar(dayOfMonth)
    requires B.Parses(B.GenerateCronFromFrequency(frequency, id, hash).value)
    requires var fires := Firings(B.GenerateCronFromFrequency(frequency, id, hash).value, dayOfMonth);
             N.IsCron(next, fires, horizon) && forall t: nat :: t + frequency <= horizon(t)
    requires start <= now
    ensures var fires := Firings(B.GenerateCronFromFrequency(frequency, id, hash).value, dayOfMonth);
            var due := N.Due(fires, start, now);
            && N.NoGap(fires, horizon, start, now)
            && (N.Outcome(Some(next), spec, start, now).Ok?
                <==> due == {} || |due| <= match spec.allowedMissedRuns case None => 100 case Some(n) => n)
  {
    var fires := Firings(B.GenerateCronFromFrequency(frequency, id, hash).value, dayOfMonth);
    forall t: nat
      ensures N.Continues(fires, t, horizon(t))
    {
      var u := FiresSoon(frequency, id, hash, dayOfMonth, t);
      assert fires(u) && t < u <= horizon(t);
    }
    N.FindsTheMissedRun(next, fires, horizon, spec, start, now);
  }

  /** Two due runs are at least one frequency apart. */
  lemma RunsAreSpaced(frequency: int, id: B.Identity, hash: string -> nat, dayOfMonth: int -> int, t: nat, u: nat)
    requires B.GenerateCronFromFrequency(frequency, id, hash).Ok? && B.Calendar(dayOfMonth)
    requires B.Parses(B.GenerateCronFromFrequency(frequency, id, hash).value)
    requires var e := B.GenerateCronFromFrequency(frequency, id, hash).value;
             FiresAt(e, dayOfMonth, t) && FiresAt(e, dayOfMonth, u) && t < u
    ensures u - t >= frequency
  {
    GeneratedParses(frequency, id, hash);
    var e := B.GenerateCronFromFrequency(frequency, id, hash).value;
    var m, k := (t - EPOCH) / B.MINUTE, (u - EPOCH) / B.MINUTE;
    assert t - EPOCH == m * B.MINUTE && u - EPOCH == k * B.MINUTE;
    B.GeneratedFiresOncePerInterval(frequency, id, hash, dayOfMonth, m);
    B.AcceptedIsWhole(frequency);
    hide B.Fires, B.GenerateCronFromFrequency, B.ValidateBackupFrequency, B.Parses;
    assert B.Fires(e, dayOfMonth, m) && B.Fires(e, dayOfMonth, k);
    assert k >= m + frequency / B.MINUTE;
  }
}
