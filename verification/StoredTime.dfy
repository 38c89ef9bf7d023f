/** Run times and the form in which the log stores them (ectest/internal/spec/sample.go).

  The runner sees exact times; samples.csv and events.log keep three decimals of a second.
  An exact time is an `int` number of nanoseconds (the resolution of Go's time.Duration), a
  stored time an `int` number of milliseconds. */
module StoredTime {

  const NS_PER_MS := 1_000_000
  const NS_PER_S := 1_000_000_000
  const MS_PER_S := 1_000

  /** The stored form of t: the nearest millisecond, a tie to the even one. */
  function RoundMs(t: int): (ms: int)
    ensures 2 * (t - ms * NS_PER_MS) <= NS_PER_MS
    ensures 2 * (ms * NS_PER_MS - t) <= NS_PER_MS
  {
    var whole, rest := t / NS_PER_MS, t % NS_PER_MS;
    if 2 * rest < NS_PER_MS || (2 * rest == NS_PER_MS && whole % 2 == 0) then whole else whole + 1
  }

  /** What reading a stored time back gives. */
  function Stored(t: int): int {
    RoundMs(t) * NS_PER_MS
  }

  /** How much later a is than b, as far as their stored values tell. */
  function SinceMs(a: int, b: int): int {
    RoundMs(Stored(a) - Stored(b))
  }

  lemma RoundMsExact(ms: int)
    ensures RoundMs(ms * NS_PER_MS) == ms
  {
  }

  lemma RoundMsMonotone(t: int, u: int)
    requires t <= u
    ensures RoundMs(t) <= RoundMs(u)
  {
    if t / NS_PER_MS < u / NS_PER_MS {
      assert RoundMs(t) <= t / NS_PER_MS + 1;
    }
  }

  lemma StoredIdempotent(t: int)
    ensures Stored(Stored(t)) == Stored(t)
  {
    RoundMsExact(RoundMs(t));
  }

  /** The report, which only has the stored times, computes the same difference as the
    runner, which has the exact ones. */
  lemma SinceMsOfStored(a: int, b: int)
    ensures SinceMs(Stored(a), Stored(b)) == SinceMs(a, b)
  {
    StoredIdempotent(a);
    StoredIdempotent(b);
  }

  /** The difference is off the exact one by at most a millisecond. */
  lemma SinceMsAccuracy(a: int, b: int)
    ensures SinceMs(a, b) == RoundMs(a) - RoundMs(b)
    ensures -NS_PER_MS <= SinceMs(a, b) * NS_PER_MS - (a - b) <= NS_PER_MS
  {
    assert Stored(a) - Stored(b) == (RoundMs(a) - RoundMs(b)) * NS_PER_MS;
    RoundMsExact(RoundMs(a) - RoundMs(b));
  }
}
