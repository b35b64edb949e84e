/** Timeouts from the libc boundary to the broker's deadline. */
module Timeouts {
  import opened SemTypes

  const BILLION := 1_000_000_000

  // ---------------------------------------------------------------- the libc overlay

  /** The wire value of a (seconds, nanoseconds) timeout, or the errno the caller sees. */
  function WireTimeout(seconds: i64, nanoseconds: i64): Result<i64> {
    if seconds < 0 || nanoseconds < 0 || nanoseconds >= BILLION then Err(EINVAL)
    else if seconds > (INT64_MAX - nanoseconds) / BILLION then Err(EOVERFLOW)
    else
      assert seconds * BILLION + nanoseconds <= INT64_MAX;
      Ok(seconds * BILLION + nanoseconds)
  }

  /** A timeout is accepted exactly when it is well formed and its total fits in 64 bits, and the broker splits it
      back. */
  lemma WireTimeoutExact(seconds: i64, nanoseconds: i64)
    ensures WireTimeout(seconds, nanoseconds).Ok? <==>
            0 <= seconds && 0 <= nanoseconds < BILLION && seconds * BILLION + nanoseconds <= INT64_MAX
    ensures WireTimeout(seconds, nanoseconds).Err? ==>
              WireTimeout(seconds, nanoseconds).errno ==
                if 0 <= seconds && 0 <= nanoseconds < BILLION then EOVERFLOW else EINVAL
    ensures WireTimeout(seconds, nanoseconds).Ok? ==>
              var total := WireTimeout(seconds, nanoseconds).value;
              0 <= total && total / BILLION == seconds && total % BILLION == nanoseconds
  {
  }

  // ---------------------------------------------------------------- deadlines

  datatype Time = Time(sec: int, nsec: int)

  /** A reading of the monotonic clock. */
  predicate Normal(t: Time) {
    0 <= t.sec && 0 <= t.nsec < BILLION
  }

  /** A point in time as one number of nanoseconds. */
  function Nanos(t: Time): int {
    t.sec * BILLION + t.nsec
  }

  function Compare(a: Time, b: Time): int {
    if a.sec != b.sec then if a.sec < b.sec then -1 else 1
    else if a.nsec == b.nsec then 0
    else if a.nsec < b.nsec then -1 else 1
  }

  /** Comparing by fields is comparing the instants, for normalised times. */
  lemma CompareIsOrder(a: Time, b: Time)
    requires Normal(a) && Normal(b)
    ensures Compare(a, b) < 0 <==> Nanos(a) < Nanos(b)
    ensures Compare(a, b) == 0 <==> Nanos(a) == Nanos(b)
  {
  }

  function Carry(t: Time): Time {
    if t.nsec >= BILLION then Time(t.sec + 1, t.nsec - BILLION) else t
  }

  /** The deadline for a timeout that starts now; far deadlines saturate. */
  function Deadline(now: Time, timeout: i64): Time
    requires timeout >= 0
  {
    var seconds, nanoseconds := timeout / BILLION, timeout % BILLION;
    if seconds > INT_MAX || now.sec > INT_MAX - seconds then Time(INT_MAX, BILLION - 1)
    else Carry(Time(now.sec + seconds, now.nsec + nanoseconds))
  }

  /** The deadline is normalised; it is exactly now plus the timeout unless the seconds pass INT_MAX, and then it
      saturates. */
  lemma DeadlineExact(now: Time, timeout: i64)
    requires Normal(now) && timeout >= 0
    ensures Normal(Deadline(now, timeout))
    ensures now.sec + timeout / BILLION <= INT_MAX ==> Nanos(Deadline(now, timeout)) == Nanos(now) + timeout
    ensures now.sec + timeout / BILLION > INT_MAX ==>
              && Deadline(now, timeout) == Time(INT_MAX, BILLION - 1)
              && Nanos(Deadline(now, timeout)) < Nanos(now) + timeout
  {
    var seconds, nanoseconds := timeout / BILLION, timeout % BILLION;
    assert timeout == seconds * BILLION + nanoseconds;
  }

  /** From the libc call to the stored deadline: seconds and nanoseconds after the enqueue instant. */
  lemma EndToEnd(seconds: i64, nanoseconds: i64, now: Time)
    requires Normal(now) && WireTimeout(seconds, nanoseconds).Ok? && now.sec + seconds <= INT_MAX
    ensures var wire := WireTimeout(seconds, nanoseconds).value;
            wire >= 0 && Nanos(Deadline(now, wire)) == Nanos(now) + seconds * BILLION + nanoseconds
  {
    WireTimeoutExact(seconds, nanoseconds);
    DeadlineExact(now, WireTimeout(seconds, nanoseconds).value);
  }

  /** The instant a sleep ends at the latest: the poll interval, or the operation's own deadline if that is sooner. */
  function WakeBy(now: Time, deadline: Option<Time>): Time {
    var poll := Carry(Time(now.sec, now.nsec + 250_000_000));
    if deadline.Some? && Compare(deadline.value, poll) < 0 then deadline.value else poll
  }

  /** The limit as it is worked out before a wait. */
  method SleepLimit(now: Time, deadline: Option<Time>) returns (until: Time)
    ensures until == WakeBy(now, deadline)
  {
    until := Time(now.sec, now.nsec + 250_000_000);
    if until.nsec >= BILLION { until := Time(until.sec + 1, until.nsec - BILLION); }
    if deadline.Some? && Compare(deadline.value, until) < 0 { until := deadline.value; }
  }

  /** A sleep lasts a quarter second, or until the deadline if that is sooner. */
  lemma WakeByBounds(now: Time, deadline: Option<Time>)
    requires Normal(now) && (deadline.Some? ==> Normal(deadline.value))
    ensures Normal(WakeBy(now, deadline))
    ensures var quarter := Nanos(now) + 250_000_000;
            Nanos(WakeBy(now, deadline)) ==
              if deadline.Some? && Nanos(deadline.value) < quarter then Nanos(deadline.value) else quarter
  {
    var poll := Carry(Time(now.sec, now.nsec + 250_000_000));
    if deadline.Some? { CompareIsOrder(deadline.value, poll); }
  }
}
