/**
 The byte counters: a 32-bit interval counter that wraps, and a 64-bit total that the interval is moved into.
 */
module StatsCollector {
  import opened Common

  const TWO_TO_32: nat := 0x1_0000_0000
  const TWO_TO_64: nat := 0x1_0000_0000_0000_0000

  /** What a failed read returns, as a size_t. */
  const MINUS_ONE: nat := TWO_TO_64 - 1

  datatype StatsRate = StatsRate(rate: nat, bytes: nat)

  /** The values of the two counters. */
  datatype Counters = Counters(intvl: nat, total: nat)

  const ZERO := Counters(0, 0)

  function Reported(c: Counters, bytes: nat): Counters {
    c.(intvl := (c.intvl + bytes) % TWO_TO_32)
  }

  function Collected(c: Counters): Counters {
    Counters(0, (c.total + c.intvl) % TWO_TO_64)
  }

  function ReportedAll(c: Counters, sizes: seq<nat>): Counters {
    if sizes == [] then c
    else Reported(ReportedAll(c, sizes[..|sizes| - 1]), sizes[|sizes| - 1])
  }

  /** C's division, which truncates towards zero. */
  function TruncatedQuotient(a: int, b: int): int
    requires b != 0
  {
    if a >= 0 then (if b > 0 then a / b else -(a / -b))
    else (if b > 0 then -(-a / b) else -a / -b)
  }

  /** Times a positive divisor, it is at most the dividend, and short of it by less than the divisor. */
  lemma QuotientIsFloor(a: nat, b: nat)
    requires b > 0
    ensures var q := TruncatedQuotient(a, b); q * b <= a < q * b + b
  {
    assert a == a / b * b + a % b;
  }

  lemma ProductAtLeast(q: nat, b: nat)
    requires b > 0
    ensures q <= q * b
  {
  }

  /** It is no more than the dividend. */
  lemma QuotientIsSmaller(a: nat, b: nat)
    requires b > 0
    ensures 0 <= TruncatedQuotient(a, b) <= a
  {
    QuotientIsFloor(a, b);
    ProductAtLeast(a / b, b);
  }

  class StatsCollector {
    var intvlBytesTrns: nat
    var intvlStart: int
    var totalBytesTrns: nat

    ghost function View(): Counters
      reads this
    {
      Counters(intvlBytesTrns, totalBytesTrns)
    }

    /** intvlStart is not initialised: `start` is whatever it holds. */
    constructor (start: int)
      ensures View() == ZERO
    {
      intvlBytesTrns, totalBytesTrns, intvlStart := 0, 0, start;
    }

    method ReportBytes(transferedBytes: nat)
      modifies this
      ensures View() == Reported(old(View()), transferedBytes) && intvlStart == old(intvlStart)
    {
      intvlBytesTrns := (intvlBytesTrns + transferedBytes) % TWO_TO_32;
    }

    /** The bytes of the interval that ends now, and their rate; fails on an interval shorter than the clock's
        second, for which the rate divides by zero. */
    method GetStatsInPrevPeriod(now: int) returns (r: Result<StatsRate>)
      modifies this
      ensures r.Success? <==> now != old(intvlStart)
      ensures r.Failure? ==> View() == old(View()) && intvlStart == old(intvlStart)
      ensures r.Success? ==> View() == Collected(old(View())) && intvlStart == now
      ensures r.Success? ==> r.value.bytes == old(intvlBytesTrns)
      ensures r.Success? ==> r.value.rate == TruncatedQuotient(old(intvlBytesTrns), now - old(intvlStart)) % TWO_TO_32
      ensures r.Success? && now > old(intvlStart) && r.value.bytes < TWO_TO_32 ==> var seconds := now - old(intvlStart);
        r.value.rate * seconds <= r.value.bytes < r.value.rate * seconds + seconds
    {
      if now == intvlStart {
        return Failure("division by zero");
      }
      if now > intvlStart {
        QuotientIsFloor(intvlBytesTrns, now - intvlStart);
        QuotientIsSmaller(intvlBytesTrns, now - intvlStart);
      }
      var stats := StatsRate(TruncatedQuotient(intvlBytesTrns, now - intvlStart) % TWO_TO_32, intvlBytesTrns);
      intvlStart := now;
      totalBytesTrns := (totalBytesTrns + intvlBytesTrns) % TWO_TO_64;
      intvlBytesTrns := 0;
      return Success(stats);
    }
  }

  // ---------------------------------------------------------------- what a history of calls leaves behind

  datatype Call = Report(bytes: nat) | Collect

  function Called(c: Counters, call: Call): Counters {
    if call.Report? then Reported(c, call.bytes) else Collected(c)
  }

  function After(c: Counters, calls: seq<Call>): Counters
    decreases |calls|
  {
    if calls == [] then c else After(Called(c, calls[0]), calls[1..])
  }

  function Bytes(call: Call): nat { if call.Report? then call.bytes else 0 }

  /** All bytes reported. */
  function Sum(calls: seq<Call>): nat {
    if calls == [] then 0
    else Bytes(calls[0]) + Sum(calls[1..])
  }

  /** The bytes counted in all. */
  function Held(c: Counters): nat { c.total + c.intvl }

  /** The same, as far as 32 bits tell. */
  function Lifetime(c: Counters): nat { Held(c) % TWO_TO_32 }

  lemma Wrap32(x: nat)
    ensures x % TWO_TO_32 == x - (x / TWO_TO_32) * TWO_TO_32 < TWO_TO_32
    ensures if x < TWO_TO_32 then x % TWO_TO_32 == x else x % TWO_TO_32 <= x - TWO_TO_32
  {
  }

  lemma Wrap64(x: nat)
    ensures x % TWO_TO_64 == x - (x / TWO_TO_64) * TWO_TO_64
    ensures if x < TWO_TO_64 then x % TWO_TO_64 == x else x % TWO_TO_64 <= x - TWO_TO_64
  {
  }

  /** Numbers that are a multiple of 2^32 apart have the same 32 bits. */
  lemma SameBits(a: nat, b: nat, k: int)
    requires a == b + k * TWO_TO_32
    ensures a % TWO_TO_32 == b % TWO_TO_32
  {
    Wrap32(a);
    Wrap32(b);
    assert a % TWO_TO_32 - b % TWO_TO_32 == (k - a / TWO_TO_32 + b / TWO_TO_32) * TWO_TO_32;
  }

  /** A call loses a multiple of 2^32 bytes. */
  lemma CallKeepsBytes(c: Counters, call: Call) returns (k: int)
    ensures Held(Called(c, call)) == Held(c) + Bytes(call) + k * TWO_TO_32
  {
    if call.Report? { k := Lost32(c.intvl + call.bytes); } else { k := Lost64(Held(c)); }
  }

  lemma Lost32(x: nat) returns (k: int)
    ensures x % TWO_TO_32 == x + k * TWO_TO_32
  {
    Wrap32(x);
    k := -(x / TWO_TO_32);
  }

  lemma Lost64(x: nat) returns (k: int)
    ensures x % TWO_TO_64 == x + k * TWO_TO_32
  {
    Wrap64(x);
    var q := x / TWO_TO_64;
    assert q * TWO_TO_64 == (q * TWO_TO_32) * TWO_TO_32;
    k := -(q * TWO_TO_32);
  }

  lemma {:induction false} CallsKeepBytes(c: Counters, calls: seq<Call>) returns (k: int)
    ensures Held(After(c, calls)) == Held(c) + Sum(calls) + k * TWO_TO_32
    decreases |calls|
  {
    k := 0;
    if calls != [] {
      var i := CallKeepsBytes(c, calls[0]);
      var j := CallsKeepBytes(Called(c, calls[0]), calls[1..]);
      k := i + j;
    }
  }

  /** No byte is forgotten, up to 2^32: after any calls, the counters add up to all that was reported. */
  lemma CountersConserveBytes(calls: seq<Call>)
    ensures Lifetime(After(ZERO, calls)) == Sum(calls) % TWO_TO_32
  {
    var k := CallsKeepBytes(ZERO, calls);
    SameBits(Held(After(ZERO, calls)), Sum(calls), k);
  }

  /** No interval reaches 2^32 bytes, and no total 2^64. */
  predicate NothingWraps(c: Counters, calls: seq<Call>)
    decreases |calls|
  {
    if calls == [] then true
    else
      && (if calls[0].Report? then c.intvl + calls[0].bytes < TWO_TO_32 else Held(c) < TWO_TO_64)
      && NothingWraps(Called(c, calls[0]), calls[1..])
  }

  /** The counters never add up to more than was reported, and to exactly that just when nothing wraps. */
  lemma {:induction false} CountersExactWhen(c: Counters, calls: seq<Call>)
    ensures Held(After(c, calls)) <= Held(c) + Sum(calls)
    ensures Held(After(c, calls)) == Held(c) + Sum(calls) <==> NothingWraps(c, calls)
    decreases |calls|
  {
    if calls != [] {
      if calls[0].Report? { ReportFalls(c, calls[0].bytes); } else { CollectFalls(c); }
      CountersExactWhen(Called(c, calls[0]), calls[1..]);
    }
  }

  /** A report that takes the interval to 2^32 loses at least so much. */
  lemma ReportFalls(c: Counters, bytes: nat)
    ensures Reported(c, bytes).total == c.total
    ensures if c.intvl + bytes < TWO_TO_32 then Reported(c, bytes).intvl == c.intvl + bytes
      else Reported(c, bytes).intvl + TWO_TO_32 <= c.intvl + bytes
  {
    Wrap32(c.intvl + bytes);
  }

  lemma CollectFalls(c: Counters)
    ensures if Held(c) < TWO_TO_64 then Collected(c) == Counters(0, Held(c))
      else Held(Collected(c)) + TWO_TO_64 <= Held(c)
  {
    Wrap64(Held(c));
  }

  /** A receiver's counters are not exact from its first failed read on, which reports more than an interval holds. */
  lemma {:induction false} FailedReadIsNeverExact(c: Counters, calls: seq<Call>)
    requires Report(MINUS_ONE) in calls
    ensures Held(After(c, calls)) < Held(c) + Sum(calls)
    decreases |calls|
  {
    CountersExactWhen(c, calls);
    WrapsSomewhere(c, calls);
  }

  lemma {:induction false} WrapsSomewhere(c: Counters, calls: seq<Call>)
    requires Report(MINUS_ONE) in calls
    ensures !NothingWraps(c, calls)
    decreases |calls|
  {
    if calls[0] != Report(MINUS_ONE) { WrapsSomewhere(Called(c, calls[0]), calls[1..]); }
  }
}
