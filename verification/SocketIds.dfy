/** Socket ids: a 31-bit counter in the high word, the descriptor in the low one. */
module SocketIds {
  import opened ByteStrings

  /** The counter takes these many values before it repeats. */
  const PERIOD: int := 0x8000_0000

  type Fd = f: int | 0 <= f < TWO32

  /** `++value_` in two's complement, and the reset of a negative counter. */
  function Bump(value: int): (r: int)
    requires 0 <= value <= INT_MAX
    ensures 0 <= r <= INT_MAX && r == (value + 1) % PERIOD
  {
    var v := if value == INT_MAX then -PERIOD else value + 1;
    if v < 0 then 0 else v
  }

  function Id(value: int, fd: Fd): int
    requires 0 <= value <= INT_MAX
  {
    value * TWO32 + fd
  }

  /** The counter behind the id handed out after `n` earlier ones. */
  function Counter(start: int, n: nat): (r: int)
    requires 0 <= start <= INT_MAX
    ensures 0 <= r <= INT_MAX
  {
    if n == 0 then Bump(start) else Bump(Counter(start, n - 1))
  }

  lemma {:induction false} CounterIsModular(start: int, n: nat)
    requires 0 <= start <= INT_MAX
    ensures Counter(start, n) == (start + n + 1) % PERIOD
  {
    if n > 0 { CounterIsModular(start, n - 1); }
  }

  /** An id is non-negative as a 64-bit value and splits back into counter and descriptor. */
  lemma IdSplits(value: int, fd: Fd)
    requires 0 <= value <= INT_MAX
    ensures 0 <= Id(value, fd) < TWO64 / 2
    ensures Id(value, fd) / TWO32 == value && Id(value, fd) % TWO32 == fd
  {
  }

  lemma SameRemainder(a: int, b: int)
    ensures a % PERIOD == b % PERIOD <==> (b - a) % PERIOD == 0
  {
    var q, r := a / PERIOD, b / PERIOD;
    assert b - a == PERIOD * (r - q) + (b % PERIOD - a % PERIOD);
  }

  lemma IdIsInjective(v: int, f: Fd, w: int, g: Fd)
    requires 0 <= v <= INT_MAX && 0 <= w <= INT_MAX
    ensures Id(v, f) == Id(w, g) <==> v == w && f == g
  {
  }

  lemma CountersCoincide(start: int, i: nat, j: nat)
    requires 0 <= start <= INT_MAX && i < j
    ensures Counter(start, i) == Counter(start, j) <==> (j - i) % PERIOD == 0
  {
    var a, b := start + i + 1, start + j + 1;
    assert Counter(start, i) == a % PERIOD by { CounterIsModular(start, i); }
    assert Counter(start, j) == b % PERIOD by { CounterIsModular(start, j); }
    assert b - a == j - i;
    SameRemainder(a, b);
  }

  /** Two ids of one allocator coincide exactly when they were handed out a multiple of the
      period apart for the same descriptor; so any 2^31 consecutive ids are distinct. */
  lemma IdsCoincide(start: int, fds: seq<Fd>, i: nat, j: nat)
    requires 0 <= start <= INT_MAX && i < j < |fds|
    ensures Id(Counter(start, i), fds[i]) == Id(Counter(start, j), fds[j])
      <==> (j - i) % PERIOD == 0 && fds[i] == fds[j]
    ensures j - i < PERIOD ==> Id(Counter(start, i), fds[i]) != Id(Counter(start, j), fds[j])
  {
    CountersCoincide(start, i, j);
    IdIsInjective(Counter(start, i), fds[i], Counter(start, j), fds[j]);
  }

  class SocketIdAllocator {
    var value: int

    constructor ()
      ensures value == 0
    {
      value := 0;
    }

    method NextId(fd: Fd) returns (id: int)
      requires 0 <= value <= INT_MAX
      modifies this
      ensures 0 <= value <= INT_MAX && value == Bump(old(value)) && id == Id(value, fd)
    {
      value := if value == INT_MAX then -PERIOD else value + 1;
      if value < 0 { value := 0; }
      id := value * TWO32 + fd;
    }
  }
}
