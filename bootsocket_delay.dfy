/** `Delay` of the `codemwnci.bootsocket` variant: a `java.util.concurrent.Delayed`
    whose field `now` is the time it is due, ordered by that field. The clock
    (`System.currentTimeMillis()`) is the parameter `clock`. */
module BootsocketDelay {

  /** `Delay(timestamp, message, now)`; `timestamp` is the requested interval. */
  datatype Delay = Delay(timestamp: int, message: string, now: int)

  /** `java.util.concurrent.TimeUnit`, which `getDelay` ignores. */
  datatype TimeUnit = Nanoseconds | Microseconds | Milliseconds | Seconds | Minutes | Hours | Days

  /** `a.compareTo(b)`: -1, 0 or 1 by the due times alone. */
  function CompareTo(a: Delay, b: Delay): (r: int)
    ensures r == -1 || r == 0 || r == 1
    ensures r < 0 <==> a.now < b.now
    ensures r > 0 <==> a.now > b.now
  {
    if a.now < b.now then -1
    else if a.now > b.now then 1
    else 0
  }

  /** `d.getDelay(unit)`: how long until `d` is due, in milliseconds whatever
      the unit asked for. */
  function GetDelay(d: Delay, unit: TimeUnit, clock: int): (r: int)
    ensures clock + r == d.now
  {
    d.now - clock
  }

  lemma CompareToReflexive(a: Delay)
    ensures CompareTo(a, a) == 0
  {
  }

  lemma CompareToAntisymmetric(a: Delay, b: Delay)
    ensures CompareTo(a, b) == -CompareTo(b, a)
  {
  }

  lemma CompareToTransitive(a: Delay, b: Delay, c: Delay)
    requires CompareTo(a, b) <= 0 && CompareTo(b, c) <= 0
    ensures CompareTo(a, c) <= 0
  {
  }

  /** Two delays due at the same time compare equal, whatever their interval
      and message. */
  lemma CompareToOnlyDueTime(a: Delay, b: Delay)
    requires a.now == b.now
    ensures CompareTo(a, b) == 0
  {
  }

  lemma GetDelayIgnoresUnit(d: Delay, u: TimeUnit, v: TimeUnit, clock: int)
    ensures GetDelay(d, u, clock) == GetDelay(d, v, clock)
  {
  }

  /** A delay is still pending (positive) exactly while the clock is before
      its due time. */
  lemma GetDelayPositive(d: Delay, unit: TimeUnit, clock: int)
    ensures GetDelay(d, unit, clock) > 0 <==> d.now > clock
  {
  }

  /** A delay built as `Delay(interval, msg, clock + interval)` reports
      `interval` at that same clock. */
  lemma GetDelayOfFresh(interval: int, message: string, clock: int, unit: TimeUnit)
    ensures GetDelay(Delay(interval, message, clock + interval), unit, clock) == interval
  {
  }
}
