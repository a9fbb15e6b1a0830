/**
weos_chrono_getSystemClockTicks. Time is a true tick counter C; os_time shows
C / period modulo 2^32, os_tick_val shows C modulo period. Reading os_time
together with its pending-overflow flag is one atomic read.
*/
module SystemClock {
  import opened Arith
  import Words
  import opened Wrappers

  const TWO28: nat := 0x1000_0000
  const TWO63: nat := 0x8000_0000_0000_0000
  const TWO64: nat := 0x1_0000_0000_0000_0000

  /** The true counter at the four reads of one iteration. */
  datatype Quad = Quad(a: nat, b: nat, c: nat, d: nat)

  predicate InOrder(q: Quad) {
    q.a <= q.b <= q.c <= q.d
  }

  predicate Accepted(q: Quad, period: nat)
    requires period > 0
  {
    q.c % period > q.a % period && (q.b / period) % TWO32 == (q.d / period) % TWO32
  }

  /** The unwrapped value that the accepted pair (time, ticks) stands for. */
  function Sampled(q: Quad, period: nat): nat
    requires period > 0
  {
    q.b / period * period + q.a % period
  }

  lemma DivStep(x: nat, y: nat, period: nat)
    requires period > 0 && x <= y
    ensures x / period * period <= y / period * period
  {
    var i, j := x / period, y / period;
    assert x == i * period + x % period && y == j * period + y % period;
    if j < i { MulMonotone(j + 1, i, period); }
    MulMonotone(i, j, period);
  }

  lemma QuotientAndRest(x: nat, period: nat)
    requires period > 0
    ensures x == x / period * period + x % period
  {
  }

  /**
    The accepted pair is the counter value of some instant between the first and the third read. The
    comparison of the ticks alone makes it so; the interval between the reads may be of any length.
  */
  lemma SampleIsBracketed(q: Quad, period: nat)
    requires period > 0 && InOrder(q) && q.c % period > q.a % period
    ensures q.a <= Sampled(q, period) < q.c
  {
    DivStep(q.a, q.b, period);
    DivStep(q.b, q.c, period);
    QuotientAndRest(q.a, period);
    QuotientAndRest(q.c, period);
  }

  /** An iteration that stays inside one interval and sees the ticks advance is accepted, with the ticks and time of its first two reads. */
  lemma OrdinaryIterationIsAccepted(q: Quad, period: nat)
    requires period > 0 && InOrder(q) && q.a < q.c && q.d / period == q.a / period
    ensures Accepted(q, period) && Sampled(q, period) == q.a
  {
    QuotientAndRest(q.a, period);
    QuotientAndRest(q.c, period);
    SameQuotient(q.a, q.b, q.d, period);
    SameQuotient(q.a, q.c, q.d, period);
  }

  lemma SameQuotient(x: nat, y: nat, z: nat, period: nat)
    requires period > 0 && x <= y <= z && x / period == z / period
    ensures y / period == x / period
  {
    var i := x / period;
    QuotientAndRest(x, period);
    QuotientAndRest(z, period);
    assert y == i * period + (y - i * period);
    DivUnique(y, period, i, y - i * period);
  }

  /** Step 1, the do/while loop, on the true readings it makes one after the other. */
  method Sample(readings: seq<nat>, period: nat) returns (r: Option<(nat, nat)>, ghost k: nat)
    requires period > 0
    ensures r.Some? ==> 4 * k + 4 <= |readings|
    ensures r.Some? ==> var q := QuadAt(readings, k);
      Accepted(q, period) && r.value == (q.a % period, (q.b / period) % TWO32)
    ensures forall i :: 0 <= i && 4 * i + 4 <= |readings| && (r.None? || i < k) ==> !Accepted(QuadAt(readings, i), period)
  {
    k := 0;
    r := None;
    var n := 0;
    while r.None? && n + 4 <= |readings|
      invariant 0 <= n && (r.None? ==> n == 4 * k) && (r.Some? ==> n == 4 * k + 4 <= |readings|)
      invariant r.Some? ==> var q := QuadAt(readings, k);
        Accepted(q, period) && r.value == (q.a % period, (q.b / period) % TWO32)
      invariant forall i :: 0 <= i < k && 4 * i + 4 <= |readings| ==> !Accepted(QuadAt(readings, i), period)
      decreases |readings| - n
    {
      assert QuadAt(readings, k) == Quad(readings[n], readings[n + 1], readings[n + 2], readings[n + 3]);
      var ticks := readings[n] % period;
      var time := (readings[n + 1] / period) % TWO32;
      var ticksAgain := readings[n + 2] % period;
      var timeAgain := (readings[n + 3] / period) % TWO32;
      n := n + 4;
      if ticksAgain <= ticks || time != timeAgain {
        k := k + 1;
      } else {
        r := Some((ticks, time));
      }
    }
  }

  function QuadAt(readings: seq<nat>, k: nat): Quad
    requires 4 * k + 4 <= |readings|
  {
    Quad(readings[4 * k], readings[4 * k + 1], readings[4 * k + 2], readings[4 * k + 3])
  }

  // Step 2: the packed overflow word

  /** The bitwise or of a multiple of 2^28 below 2^32 and an incremented 28 bit counter. */
  function Or(highBits: nat, overflows: nat): (word: nat)
    requires highBits % TWO28 == 0 && highBits < TWO32 && overflows <= TWO28
    ensures word < TWO32
  {
    if overflows < TWO28 then highBits + overflows
    else if highBits / TWO28 % 2 == 1 then highBits else highBits + TWO28
  }

  /** The word after the highest bits of os_time have taken the (unwrapped) value h. */
  function Packed(h: nat): nat {
    h % 16 * TWO28 + h / 16
  }

  function HighBits(time: nat): nat {
    time / TWO28 * TWO28
  }

  /** The overflow count that a pass of the loop computes from the word and the sampled time. */
  function Overflows(data: nat, time: nat): nat {
    data % TWO28 + (if HighBits(time) < HighBits(data) then 1 else 0)
  }

  function NewData(data: nat, time: nat): (word: nat)
    requires data < TWO32 && time < TWO32
    ensures word < TWO32
  {
    if HighBits(time) == HighBits(data) then data else Or(HighBits(time), Overflows(data, time))
  }

  /** The mask expressions of the code are these functions: time & 0xF0000000, data & 0x0FFFFFFF and highBits | overflows. */
  lemma MasksOfTheCode(word: Words.Word, overflows: Words.Word)
    ensures Words.BitsOfWord(Words.And, word, 0xF000_0000) == HighBits(word)
    ensures Words.BitsOfWord(Words.And, word, 0x0FFF_FFFF) == word % TWO28
    ensures overflows < TWO28 ==> Words.BitsOfWord(Words.Or, HighBits(word), overflows) == Or(HighBits(word), overflows)
  {
    Words.Powers();
    PowerOf28();
    Words.MaskedBits(word, 32, 28);
    Words.LowMask(word, 32, 28);
    Words.WholePart(word, 32);
    Words.LowPartIsRemainder(word, 28);
    var upper := word / TWO28;
    assert word == upper * TWO28 + word % TWO28;
    if overflows < TWO28 {
      Words.DisjointOr(upper, overflows, 32, 28);
      assert Words.Pow2(4) == 16;
      Words.WholePart(upper, 4);
    }
  }

  /** Past 2^28 overflows the counter runs into the bits of the time: the carry is lost if the lowest of them is set. */
  lemma CounterOverflowIsLost(highBits: Words.Word)
    requires highBits % TWO28 == 0
    ensures Or(highBits, TWO28) == if highBits / TWO28 % 2 == 1 then highBits else highBits + TWO28
    ensures Words.BitsOfWord(Words.Or, highBits, TWO28) == Or(highBits, TWO28)
  {
    Words.Powers();
    PowerOf28();
    var upper := highBits / TWO28;
    assert highBits == upper * TWO28 && Words.Pow2(4) == 16;
    Words.ShiftedOr(upper, 1, 32, 28);
    Words.OrOne(upper, 4);
    Words.WholePart(upper, 4);
  }

  lemma PowerOf28()
    ensures Words.Pow2(28) == TWO28
  {
    assert Words.Pow2(4) == 16 && Words.Pow2(8) == 256;
    assert Words.Pow2(12) == 16 * Words.Pow2(8) && Words.Pow2(16) == 16 * Words.Pow2(12);
    assert Words.Pow2(20) == 16 * Words.Pow2(16) && Words.Pow2(24) == 16 * Words.Pow2(20);
  }

  lemma UnpackTime(t: nat)
    ensures t % TWO32 / TWO28 == t / TWO28 % 16
    ensures t / TWO32 == t / TWO28 / 16
  {
    var h, l := t / TWO28, t % TWO28;
    var w, n := h / 16, h % 16;
    assert t == w * TWO32 + (n * TWO28 + l);
    assert n * TWO28 + l < TWO32;
  }

  lemma UnpackData(h: nat)
    requires h / 16 < TWO28
    ensures Packed(h) < TWO32 && Packed(h) / TWO28 == h % 16 && Packed(h) % TWO28 == h / 16
  {
  }

  /**
    The exact condition for a correct overflow count. With h0 the high part recorded in the word and t
    the true time, the count is right if and only if the high part of t is the recorded one or up to
    15 steps ahead; a stale sample (behind the word) and a gap of 16 steps are always miscounted.
  */
  lemma CountIsExact(h0: nat, t: nat)
    requires h0 / 16 < TWO28 && t / TWO32 < TWO28
    ensures Overflows(Packed(h0), t % TWO32) == t / TWO32 <==> h0 <= t / TWO28 <= h0 + 15
    ensures h0 <= t / TWO28 <= h0 + 15 ==> NewData(Packed(h0), t % TWO32) == Packed(t / TWO28)
  {
    UnpackTime(t);
    UnpackData(h0);
    var h := t / TWO28;
    var n0, n, w0, w := h0 % 16, h % 16, h0 / 16, h / 16;
    assert h0 == 16 * w0 + n0 && h == 16 * w + n;
    assert HighBits(t % TWO32) == n * TWO28 && HighBits(Packed(h0)) == n0 * TWO28;
    if h0 <= h <= h0 + 15 {
      assert w == w0 || w == w0 + 1;
      assert w == w0 <==> n0 <= n;
      assert Overflows(Packed(h0), t % TWO32) == w;
    }
  }

  /** A gap of 2^32 - 2^28 intervals between two calls is always harmless, whatever the phase; one more is not. */
  lemma GapBoundIsSharp()
    ensures forall t0: nat, t: nat :: t0 <= t <= t0 + (TWO32 - TWO28) ==> t0 / TWO28 <= t / TWO28 <= t0 / TWO28 + 15
    ensures var t0, t := TWO28 - 1, TWO32;
      t == t0 + (TWO32 - TWO28) + 1 && Overflows(Packed(t0 / TWO28), t % TWO32) != t / TWO32
  {
    CountIsExact(0, TWO32);
  }

  /** The shared word and the two kernel constants. */
  class Clock {
    var overflowData: nat   // weos_chrono_overflowData
    const trv: nat          // os_trv

    constructor (trv: nat)
      ensures overflowData == Packed(0) && this.trv == trv
    {
      overflowData := 0;
      this.trv := trv;
    }

    /** Step 2 without interference: the compare-and-exchange loop. */
    method CountOverflows(time: nat) returns (overflows: nat)
      requires overflowData < TWO32 && time < TWO32
      modifies this
      ensures overflows == Overflows(old(overflowData), time)
      ensures overflowData == NewData(old(overflowData), time)
    {
      var highBits := HighBits(time);
      overflows := 0;
      var done := false;
      while !done
        invariant done ==> overflows == Overflows(old(overflowData), time) && overflowData == NewData(old(overflowData), time)
        invariant !done ==> overflowData == old(overflowData)
        decreases !done
      {
        var data := overflowData;
        var prevHighBits := HighBits(data);
        overflows := data % TWO28;
        if highBits == prevHighBits {
          done := true;
        } else {
          if highBits < prevHighBits {
            overflows := overflows + 1;
          }
          if overflowData == data {
            overflowData := Or(highBits, overflows);
            done := true;
          }
        }
      }
    }

    /** The value returned for the pair (ticks, time): unsigned 64 bit arithmetic, converted to a signed result. */
    method Ticks(ticks: nat, time: nat) returns (result: int)
      requires overflowData < TWO32 && time < TWO32
      modifies this
      ensures result == Combine(Overflows(old(overflowData), time), time, trv, ticks)
      ensures overflowData == NewData(old(overflowData), time)
    {
      var overflows := CountOverflows(time);
      result := Combine(overflows, time, trv, ticks);
    }

    /**
      The whole call on the readings it makes one after the other; it returns for the first accepted
      iteration, number k. If the word was last set for the high part h0 and the call is in time, the
      result is the unwrapped counter at some instant between two of its reads, and the word is up to date.
    */
    method GetSystemClockTicks(readings: seq<nat>, ghost h0: nat) returns (result: Option<int>, ghost k: nat)
      requires overflowData < TWO32
      modifies this
      ensures result.None? ==> overflowData == old(overflowData)
      ensures result.Some? ==> 4 * k + 4 <= |readings| && Accepted(QuadAt(readings, k), trv + 1)
      ensures forall i :: 0 <= i && 4 * i + 4 <= |readings| && (result.None? || i < k) ==> !Accepted(QuadAt(readings, i), trv + 1)
      ensures result.Some? ==> var q := QuadAt(readings, k);
        result.value == CallResult(old(overflowData), q, trv) && overflowData == NewData(old(overflowData), q.b / (trv + 1) % TWO32)
      ensures result.Some? && old(overflowData) == Packed(h0) && InTime(h0, QuadAt(readings, k), trv) ==>
        var q := QuadAt(readings, k);
        && result.value == Sampled(q, trv + 1) && q.a <= result.value < q.c
        && overflowData == Packed(q.b / (trv + 1) / TWO28)
    {
      var sample;
      sample, k := Sample(readings, trv + 1);
      if sample.None? {
        return None, k;
      }
      var ticks := Ticks(sample.value.0, sample.value.1);
      ghost var q := QuadAt(readings, k);
      if InTime(h0, q, trv) {
        InTimeIsExact(h0, q, trv);
        SampleIsBracketed(q, trv + 1);
      }
      return Some(ticks), k;
    }
  }

  function Signed64(x: nat): int {
    var y := x % TWO64;
    if y < TWO63 then y else y - TWO64
  }

  /** The conversion to a signed result is two's complement: in range, and the same modulo 2^64. */
  lemma SignedIsTwosComplement(x: nat)
    ensures 0 - TWO63 <= Signed64(x) < TWO63 && Signed64(x) % TWO64 == x % TWO64
    ensures x < TWO63 ==> Signed64(x) == x
  {
  }

  /** os_trv + 1 is a 32 bit sum. */
  function Combine(overflows: nat, time: nat, trv: nat, ticks: nat): int {
    Signed64((overflows * TWO32 + time) * ((trv + 1) % TWO32) + ticks)
  }

  // Sequential calls

  /** What one call does with an accepted quadruple of readings. */
  function CallResult(data: nat, q: Quad, trv: nat): int {
    var time := (q.b / (trv + 1)) % TWO32;
    Combine(Overflows(data, time), time, trv, q.a % (trv + 1))
  }

  function Results(data: nat, calls: seq<Quad>, trv: nat): seq<int>
    requires data < TWO32
    decreases |calls|
  {
    if calls == [] then []
    else
      var time := (calls[0].b / (trv + 1)) % TWO32;
      var data' := NewData(data, time);
      [CallResult(data, calls[0], trv)] + Results(data', calls[1..], trv)
  }

  /** One call is a well-formed sample that neither wraps 28 bits of overflows nor leaves the result type. */
  predicate GoodCall(q: Quad, trv: nat) {
    var p := trv + 1;
    && InOrder(q) && Accepted(q, p)
    && q.b / p / TWO32 < TWO28 && Sampled(q, p) < TWO63
  }

  /** The call samples a high part of at most 15 steps after h0, which the word was last set for. */
  predicate InTime(h0: nat, q: Quad, trv: nat) {
    && trv + 1 < TWO32 && h0 / 16 < TWO28 && GoodCall(q, trv)
    && h0 <= q.b / (trv + 1) / TWO28 <= h0 + 15
  }

  lemma InTimeIsExact(h0: nat, q: Quad, trv: nat)
    requires InTime(h0, q, trv)
    ensures CallResult(Packed(h0), q, trv) == Sampled(q, trv + 1)
    ensures NewData(Packed(h0), q.b / (trv + 1) % TWO32) == Packed(q.b / (trv + 1) / TWO28) < TWO32
  {
    var t, ticks := q.b / (trv + 1), q.a % (trv + 1);
    CountIsExact(h0, t);
    UnpackTime(t);
    UnpackData(t / TWO28);
    CombineIsExact(t, trv, ticks);
  }

  /** The calls follow each other, at most 2^32 - 2^28 intervals apart; t is the time of the call before. */
  predicate WellSpaced(t: nat, c: nat, calls: seq<Quad>, trv: nat)
    decreases |calls|
  {
    calls == [] ||
    (&& GoodCall(calls[0], trv) && c <= calls[0].a
     && t <= calls[0].b / (trv + 1) <= t + (TWO32 - TWO28)
     && WellSpaced(calls[0].b / (trv + 1), calls[0].c, calls[1..], trv))
  }

  lemma CombineIsExact(t: nat, trv: nat, ticks: nat)
    requires trv + 1 < TWO32 && t * (trv + 1) + ticks < TWO63
    ensures Combine(t / TWO32, t % TWO32, trv, ticks) == t * (trv + 1) + ticks
  {
    assert t / TWO32 * TWO32 + t % TWO32 == t;
    assert (trv + 1) % TWO32 == trv + 1;
  }

  lemma CallIsExact(t0: nat, q: Quad, trv: nat)
    requires trv + 1 < TWO32 && t0 / TWO28 / 16 < TWO28
    requires GoodCall(q, trv) && t0 <= q.b / (trv + 1) <= t0 + (TWO32 - TWO28)
    ensures CallResult(Packed(t0 / TWO28), q, trv) == Sampled(q, trv + 1)
    ensures NewData(Packed(t0 / TWO28), q.b / (trv + 1) % TWO32) == Packed(q.b / (trv + 1) / TWO28) < TWO32
  {
    InTimeIsExact(t0 / TWO28, q, trv);
  }

  /** Sequential calls return the unwrapped counter, and the returned values strictly increase. */
  lemma {:induction false} ClockIsExact(t0: nat, c0: nat, calls: seq<Quad>, trv: nat)
    requires trv + 1 < TWO32 && t0 / TWO28 / 16 < TWO28 && Packed(t0 / TWO28) < TWO32
    requires WellSpaced(t0, c0, calls, trv)
    ensures var r := Results(Packed(t0 / TWO28), calls, trv);
      && |r| == |calls|
      && (forall i :: 0 <= i < |r| ==> r[i] == Sampled(calls[i], trv + 1) && c0 <= r[i])
      && (forall i, j :: 0 <= i < j < |r| ==> r[i] < r[j])
    decreases |calls|
  {
    if calls != [] {
      var q := calls[0];
      var t := q.b / (trv + 1);
      CallIsExact(t0, q, trv);
      SampleIsBracketed(q, trv + 1);
      UnpackTime(t);
      ClockIsExact(t, q.c, calls[1..], trv);
      var rest := Results(Packed(t / TWO28), calls[1..], trv);
      assert Results(Packed(t0 / TWO28), calls, trv) == [CallResult(Packed(t0 / TWO28), q, trv)] + rest;
      assert forall i :: 0 <= i < |rest| ==> rest[i] >= q.c;
    }
  }

  // Racing threads

  type Tid = nat

  /** A thread between its sample and its return; t is the true time of its sample. */
  datatype Racer = Looping(t: nat) | Loaded(t: nat, data: nat) | Returned(t: nat, overflows: nat)

  /** now is the true os_time, high the (unwrapped) high part that the word was last set from. */
  datatype Race = Race(now: nat, data: nat, high: nat, racers: map<Tid, Racer>)

  datatype RaceAction =
    | Tick
    | TakeSample(t: Tid)
    | Load(t: Tid)
    | Exchange(t: Tid)        // the compare-and-exchange, comparing against the loaded word
    | SpuriousFailure(t: Tid) // a weak exchange may fail without a reason

  const START := Race(0, 0, 0, map[])

  predicate InFlight(r: Racer) {
    !r.Returned?
  }

  /**
    Time is confined in two ways: the word is refreshed before the high part gets 16 steps ahead, and
    the high part does not move while a thread is between its sample and its update.
  */
  predicate TickAllowed(s: Race) {
    var h := (s.now + 1) / TWO28;
    && h <= s.high + 15 && (s.now + 1) / TWO32 < TWO28
    && (h != s.now / TWO28 ==> forall t :: t in s.racers ==> !InFlight(s.racers[t]))
  }

  predicate RaceEnabled(s: Race, a: RaceAction) {
    match a
    case Tick => TickAllowed(s)
    case TakeSample(t) => t !in s.racers || s.racers[t].Returned?
    case Load(t) => t in s.racers && s.racers[t].Looping?
    case Exchange(t) => t in s.racers && s.racers[t].Loaded? && s.racers[t].data < TWO32
    case SpuriousFailure(t) => t in s.racers && s.racers[t].Loaded?
  }

  function RaceStep(s: Race, a: RaceAction): Race
    requires RaceEnabled(s, a)
  {
    match a
    case Tick => s.(now := s.now + 1)
    case TakeSample(t) => s.(racers := s.racers[t := Looping(s.now)])
    case Load(t) =>
      var r := s.racers[t];
      var time := r.t % TWO32;
      s.(racers := s.racers[t :=
        if HighBits(time) == HighBits(s.data) then Returned(r.t, s.data % TWO28) else Loaded(r.t, s.data)])
    case Exchange(t) =>
      var r := s.racers[t];
      if s.data == r.data then
        s.(data := NewData(r.data, r.t % TWO32), high := r.t / TWO28,
           racers := s.racers[t := Returned(r.t, Overflows(r.data, r.t % TWO32))])
      else s.(racers := s.racers[t := Looping(r.t)])
    case SpuriousFailure(t) => s.(racers := s.racers[t := Looping(s.racers[t].t)])
  }

  predicate CanRace(s: Race, run: seq<RaceAction>)
    decreases |run|
  {
    run == [] || (RaceEnabled(s, run[0]) && CanRace(RaceStep(s, run[0]), run[1..]))
  }

  function Raced(s: Race, run: seq<RaceAction>): Race
    requires CanRace(s, run)
    decreases |run|
  {
    if run == [] then s else Raced(RaceStep(s, run[0]), run[1..])
  }

  ghost predicate RacerInv(s: Race, r: Racer) {
    && (InFlight(r) ==> r.t <= s.now && r.t / TWO28 == s.now / TWO28 && r.t / TWO32 < TWO28)
    && (r.Loaded? ==> r.data < TWO32)
    && (r.Loaded? && r.data != s.data ==> s.high == s.now / TWO28)
    && (r.Returned? ==> r.overflows == r.t / TWO32)
  }

  ghost predicate RaceInv(s: Race) {
    && s.high <= s.now / TWO28 <= s.high + 15
    && s.now / TWO32 < TWO28
    && s.data == Packed(s.high)
    && (forall t :: t in s.racers ==> RacerInv(s, s.racers[t]))
  }

  lemma HighBound(s: Race)
    requires RaceInv(s)
    ensures s.high / 16 < TWO28 && s.data < TWO32
  {
    UnpackTime(s.now);
    UnpackData(s.high);
  }

  /**
    What a racing thread does: it samples the present time; its load ends the call if the high bits are up to date;
    its exchange ends the call exactly if nobody has changed the word since the load, and otherwise starts over.
  */
  lemma CourseOfARacer(s: Race, t: Tid)
    requires RaceInv(s)
    ensures t !in s.racers || s.racers[t].Returned? ==>
      RaceEnabled(s, TakeSample(t)) && RaceStep(s, TakeSample(t)).racers[t] == Looping(s.now)
    ensures t in s.racers && s.racers[t].Looping? ==>
      && RaceEnabled(s, Load(t))
      && var r := s.racers[t];
      RaceStep(s, Load(t)).racers[t] == if r.t / TWO28 == s.high then Returned(r.t, r.t / TWO32) else Loaded(r.t, s.data)
    ensures t in s.racers && s.racers[t].Loaded? ==>
      && RaceEnabled(s, Exchange(t)) && RaceEnabled(s, SpuriousFailure(t))
      && var r, s' := s.racers[t], RaceStep(s, Exchange(t));
      && (if s.data == r.data then s'.racers[t] == Returned(r.t, r.t / TWO32) && s'.high == r.t / TWO28
          else s'.racers[t] == Looping(r.t) && s'.data == s.data)
      && RaceStep(s, SpuriousFailure(t)).racers[t] == Looping(r.t)
  {
    HighBound(s);
    if t in s.racers {
      var r := s.racers[t];
      assert RacerInv(s, r);
      if InFlight(r) {
        CountIsExact(s.high, r.t);
        UnpackTime(r.t);
        UnpackData(s.high);
        SameHighBits(s.high, r.t);
      }
    }
  }

  /** Up to 15 steps apart, the top nibbles are equal only if the high parts are. */
  lemma SameHighBits(h0: nat, t: nat)
    requires h0 / 16 < TWO28 && h0 <= t / TWO28 <= h0 + 15
    ensures HighBits(t % TWO32) == HighBits(Packed(h0)) <==> t / TWO28 == h0
  {
    UnpackTime(t);
    UnpackData(h0);
  }

  /** Time passes by one interval at a time; it is confined only at the end of the 16 steps and while somebody is in flight. */
  lemma TimePasses(s: Race)
    requires RaceInv(s) && (s.now + 1) / TWO32 < TWO28
    ensures (s.now + 1) / TWO28 == s.now / TWO28 ==> RaceEnabled(s, Tick)
    ensures (s.now + 1) / TWO28 <= s.high + 15 && (forall t :: t in s.racers ==> s.racers[t].Returned?) ==> RaceEnabled(s, Tick)
    ensures RaceEnabled(s, Tick) ==> RaceStep(s, Tick) == s.(now := s.now + 1)
  {
  }

  lemma RaceStepKeepsInv(s: Race, a: RaceAction)
    requires RaceInv(s) && RaceEnabled(s, a)
    ensures RaceInv(RaceStep(s, a))
  {
    HighBound(s);
    var s' := RaceStep(s, a);
    if a.Load? || a.Exchange? {
      var r := s.racers[a.t];
      assert RacerInv(s, r);
      CountIsExact(s.high, r.t);
    }
    forall t | t in s'.racers ensures RacerInv(s', s'.racers[t]) {
      if t in s.racers { assert RacerInv(s, s.racers[t]); }
    }
  }

  lemma {:induction false} RaceKeepsInv(s: Race, run: seq<RaceAction>)
    requires RaceInv(s) && CanRace(s, run)
    ensures RaceInv(Raced(s, run))
    decreases |run|
  {
    if run != [] {
      RaceStepKeepsInv(s, run[0]);
      RaceKeepsInv(RaceStep(s, run[0]), run[1..]);
    }
  }

  /**
    Racing threads count every wrap of os_time exactly once, whatever the interleaving and however often
    an exchange fails: the word always holds the wraps up to its last update, and every thread returns
    with the wraps up to its sample.
  */
  lemma WrapsAreCountedOnce(run: seq<RaceAction>, t: Tid)
    requires CanRace(START, run) && t in Raced(START, run).racers
    ensures var s := Raced(START, run);
      && s.data % TWO28 == s.high / 16 && s.high <= s.now / TWO28
      && (s.racers[t].Returned? ==> s.racers[t].overflows == s.racers[t].t / TWO32)
  {
    RaceKeepsInv(START, run);
    var s := Raced(START, run);
    HighBound(s);
    UnpackData(s.high);
    assert RacerInv(s, s.racers[t]);
  }

  /** A thread that lost the exchange to another one finds the high bits up to date and returns on its next load. */
  lemma LostExchangeEndsAtNextLoad(s: Race, t: Tid)
    requires RaceInv(s) && RaceEnabled(s, Exchange(t)) && s.data != s.racers[t].data
    ensures var s' := RaceStep(s, Exchange(t));
      RaceEnabled(s', Load(t)) && RaceStep(s', Load(t)).racers[t].Returned?
  {
    var r := s.racers[t];
    assert RacerInv(s, r);
    HighBound(s);
    UnpackData(s.high);
    UnpackTime(r.t);
  }
}
