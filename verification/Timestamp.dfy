/** Time points of timestamp.cc: whole seconds and a nanosecond field. */
module Timestamps {

  const SECOND: int := 1_000_000_000
  const MILLI: int := 1_000_000

  /** C++ division and remainder round toward zero. */
  function TruncDiv(a: int, b: int): int
    requires b > 0
  {
    if a >= 0 then a / b else -(-a / b)
  }

  function TruncMod(a: int, b: int): int
    requires b > 0
  {
    a - b * TruncDiv(a, b)
  }

  datatype Time = Time(sec: int, ns: int) {
    predicate Normal() { 0 <= ns < SECOND }
    /** The instant in nanoseconds, and in whole milliseconds. */
    function Nanos(): int { sec * SECOND + ns }
    function Millis(): int { sec * 1000 + TruncDiv(ns, MILLI) }
  }

  /** operator+= and operator+. */
  function Add(t: Time, ms: int): Time
  {
    var sec, ns := t.sec + TruncDiv(ms, 1000), t.ns + TruncMod(ms, 1000) * MILLI;
    if ns >= SECOND then Time(sec + 1, ns - SECOND) else Time(sec, ns)
  }

  predicate Less(a: Time, b: Time) { if a.sec != b.sec then a.sec < b.sec else a.ns < b.ns }

  predicate MillisecondLess(a: Time, b: Time)
  {
    if a.sec != b.sec then a.sec < b.sec else TruncDiv(a.ns, MILLI) < TruncDiv(b.ns, MILLI)
  }

  predicate MillisecondEqual(a: Time, b: Time)
  {
    a.sec == b.sec && TruncDiv(a.ns, MILLI) == TruncDiv(b.ns, MILLI)
  }

  function Distance(a: Time, b: Time): int
  {
    var (bigger, smaller) := if Less(a, b) then (b, a) else (a, b);
    (bigger.sec - smaller.sec) * 1000 + (TruncDiv(bigger.ns, MILLI) - TruncDiv(smaller.ns, MILLI))
  }

  lemma TruncBounds(a: int, b: int)
    requires b > 0
    ensures a >= 0 ==> 0 <= TruncMod(a, b) < b
    ensures a < 0 ==> -b < TruncMod(a, b) <= 0
    ensures a == b * TruncDiv(a, b) + TruncMod(a, b)
  {
  }

  /** The sum is always the right instant; its nanosecond field is in range exactly when
      the (possibly negative) sub-second part does not reach below zero. */
  lemma AddInstant(t: Time, ms: int)
    requires t.Normal()
    ensures Add(t, ms).Nanos() == t.Nanos() + ms * MILLI
    ensures Add(t, ms).Normal() <==> t.ns + TruncMod(ms, 1000) * MILLI >= 0
    ensures ms >= 0 ==> Add(t, ms).Normal()
  {
    TruncBounds(ms, 1000);
  }

  /** Normal times are determined by their instant. */
  lemma SameInstant(a: Time, b: Time)
    requires a.Normal() && b.Normal() && a.Nanos() == b.Nanos()
    ensures a == b
  {
  }

  /** A negative addition can leave the normal range. */
  lemma NegativeAddLeavesRange()
    ensures exists t: Time :: t.Normal() && !Add(t, -1).Normal()
  {
    assert TruncMod(-1, 1000) == -1;
    assert Time(0, 0).Normal() && !Add(Time(0, 0), -1).Normal();
  }

  lemma AddAssociates(t: Time, a: nat, b: nat)
    requires t.Normal()
    ensures Add(Add(t, a), b) == Add(t, a + b)
  {
    AddInstant(t, a);
    AddInstant(Add(t, a), b);
    AddInstant(t, a + b);
    SameInstant(Add(Add(t, a), b), Add(t, a + b));
  }

  lemma LessIsOrderOfInstants(a: Time, b: Time)
    requires a.Normal() && b.Normal()
    ensures Less(a, b) <==> a.Nanos() < b.Nanos()
    ensures MillisecondLess(a, b) <==> a.Millis() < b.Millis()
    ensures MillisecondEqual(a, b) <==> a.Millis() == b.Millis()
    ensures Less(a, b) ==> a.Millis() <= b.Millis()
  {
    MilliBounds(a);
    MilliBounds(b);
  }

  lemma MilliBounds(t: Time)
    requires t.Normal()
    ensures 0 <= TruncDiv(t.ns, MILLI) < 1000
    ensures t.Millis() * MILLI <= t.Nanos() < (t.Millis() + 1) * MILLI
  {
  }

  function Abs(x: int): int { if x < 0 then -x else x }

  lemma DistanceIsAbsolute(a: Time, b: Time)
    requires a.Normal() && b.Normal()
    ensures Distance(a, b) == Abs(a.Millis() - b.Millis())
  {
    LessIsOrderOfInstants(a, b);
    LessIsOrderOfInstants(b, a);
  }

  /** A pseudometric whose zero set is `millisecondEqual`. */
  lemma DistanceIsPseudometric(a: Time, b: Time, c: Time)
    requires a.Normal() && b.Normal() && c.Normal()
    ensures Distance(a, b) >= 0 && Distance(a, b) == Distance(b, a)
    ensures Distance(a, c) <= Distance(a, b) + Distance(b, c)
    ensures Distance(a, b) == 0 <==> MillisecondEqual(a, b)
  {
    DistanceIsAbsolute(a, b);
    DistanceIsAbsolute(b, a);
    DistanceIsAbsolute(a, c);
    DistanceIsAbsolute(b, c);
    LessIsOrderOfInstants(a, b);
  }

  /** Adding milliseconds moves exactly that far. */
  lemma DistanceOfSum(t: Time, ms: nat)
    requires t.Normal()
    ensures Distance(t, Add(t, ms)) == ms && Distance(Add(t, ms), t) == ms
  {
    var u := Add(t, ms);
    AddInstant(t, ms);
    MilliBounds(t);
    MilliBounds(u);
    assert u.Millis() == t.Millis() + ms;
    DistanceIsAbsolute(t, u);
    DistanceIsAbsolute(u, t);
  }

  /** The class, changed in place. */
  class Timestamp {
    var second: int
    var nanosecond: int

    ghost function Value(): Time
      reads this
    {
      Time(second, nanosecond)
    }

    /** `setNow`, given the clock's reading in nanoseconds since the epoch. */
    constructor (clock: nat)
      ensures Value().Normal() && Value().Nanos() == clock
    {
      second := clock / SECOND;
      nanosecond := clock - clock / SECOND * SECOND;
    }

    method AddAssign(ms: int)
      modifies this
      ensures Value() == Add(old(Value()), ms)
    {
      second := second + TruncDiv(ms, 1000);
      nanosecond := nanosecond + TruncMod(ms, 1000) * MILLI;
      if nanosecond >= SECOND {
        second := second + 1;
        nanosecond := nanosecond - SECOND;
      }
    }
  }
}
