/**
 * The 64-bit timer behind 32-bit registers, and the software that reads it and moves its
 * comparand. The counter runs on between any two bus accesses by an arbitrary number of cycles.
 */
module Timer {
  const WORD := 0x1_0000_0000
  const WRAP := 0x1_0000_0000_0000_0000

  type Word32 = w: int | 0 <= w < WORD

  type Word64 = w: int | 0 <= w < WRAP

  datatype Register = MtimeLow | MtimeHigh | MtimecmpLow | MtimecmpHigh

  function High(x: nat): (h: nat)
    ensures x < WRAP ==> h < WORD
  {
    x / WORD
  }

  function Low(x: nat): Word32 {
    x % WORD
  }

  function Join(high: Word32, low: Word32): (x: Word64)
    ensures High(x) == high && Low(x) == low
  {
    high * WORD + low
  }

  lemma JoinHighLow(x: Word64)
    ensures Join(High(x), Low(x)) == x
  {
  }

  lemma HighGrows(x: nat, y: nat)
    requires x <= y
    ensures High(x) <= High(y)
  {
  }

  /** Counter value at the n-th bus access, given the cycles that pass before each. */
  function At(start: nat, gaps: nat -> nat, n: nat): nat {
    if n == 0 then start else At(start, gaps, n - 1) + gaps(n - 1)
  }

  lemma {:induction false} AtGrows(start: nat, gaps: nat -> nat, m: nat, n: nat)
    requires m <= n
    ensures At(start, gaps, m) <= At(start, gaps, n)
    decreases n
  {
    if m < n {
      AtGrows(start, gaps, m, n - 1);
    }
  }

  /** The k-th attempt of a read that starts after the given number of accesses sees the same high half twice. */
  predicate Clean(start: nat, gaps: nat -> nat, accesses: nat, k: nat) {
    High(At(start, gaps, accesses + 3 * k + 1)) == High(At(start, gaps, accesses + 3 * k + 3))
  }

  /** The counter has not wrapped around 64 bits n accesses later. */
  predicate Calm(start: nat, gaps: nat -> nat, accesses: nat, n: nat) {
    At(start, gaps, accesses + n) < WRAP
  }

  /** The counter does not wrap before some attempt is clean and n more accesses are made. */
  ghost predicate Settles(start: nat, gaps: nat -> nat, accesses: nat, n: nat) {
    exists k: nat :: Clean(start, gaps, accesses, k) && Calm(start, gaps, accesses, 3 * k + 3 + n)
  }

  /** Every attempt that is not clean has seen the high half grow. */
  lemma {:induction false} AttemptsClimb(start: nat, gaps: nat -> nat, accesses: nat, tries: nat)
    requires forall k :: 0 <= k < tries ==> !Clean(start, gaps, accesses, k)
    ensures High(At(start, gaps, accesses + 3 * tries)) >= High(At(start, gaps, accesses)) + tries
    decreases tries
  {
    hide High;
    if tries > 0 {
      AttemptsClimb(start, gaps, accesses, tries - 1);
      var a := accesses + 3 * (tries - 1);
      assert !Clean(start, gaps, accesses, tries - 1);
      AtGrows(start, gaps, a, a + 1);
      AtGrows(start, gaps, a + 1, a + 3);
      HighGrows(At(start, gaps, a), At(start, gaps, a + 1));
      HighGrows(At(start, gaps, a + 1), At(start, gaps, a + 3));
    }
  }

  /** How many accesses a read can take at most, and n more. */
  function Horizon(start: nat, gaps: nat -> nat, accesses: nat, n: nat): int {
    3 * (WORD - High(At(start, gaps, accesses))) + n
  }

  /** Without a wrap-around within the horizon, whatever the counter's speed, an attempt is clean in time. */
  lemma CalmSettles(start: nat, gaps: nat -> nat, accesses: nat, n: nat)
    requires Horizon(start, gaps, accesses, n) >= n
    requires Calm(start, gaps, accesses, Horizon(start, gaps, accesses, n))
    ensures Settles(start, gaps, accesses, n)
  {
    hide High, Clean;
    var tries := WORD - High(At(start, gaps, accesses));
    AtGrows(start, gaps, accesses + 3 * tries, accesses + 3 * tries + n);
    HighBounded(At(start, gaps, accesses + 3 * tries));
    if forall k :: 0 <= k < tries ==> !Clean(start, gaps, accesses, k) {
      AttemptsClimb(start, gaps, accesses, tries);
      assert false;
    }
    var k: nat :| 0 <= k < tries && Clean(start, gaps, accesses, k);
    AtGrows(start, gaps, accesses + 3 * k + 3 + n, accesses + 3 * tries + n);
    assert Calm(start, gaps, accesses, 3 * k + 3 + n);
  }

  lemma HighBounded(x: nat)
    requires x < WRAP
    ensures High(x) < WORD
  {
  }

  /** The same number of cycles before every access. */
  function Evenly(speed: nat): nat -> nat {
    (n: nat) => speed
  }

  lemma {:induction false} Steady(start: nat, speed: nat, n: nat)
    ensures At(start, Evenly(speed), n) == start + speed * n
    decreases n
  {
    if n > 0 {
      Steady(start, speed, n - 1);
    }
  }

  /** A counter that ticks up to 2^30 times between any two accesses, for ever, settles from every low start. */
  lemma TickingSettles(start: nat, speed: nat, n: nat)
    requires start < WORD && 1 <= speed <= 0x4000_0000 && n <= 0x8000_0000
    ensures Settles(start, Evenly(speed), 0, n)
  {
    hide High;
    Steady(start, speed, 3 * WORD + n);
    assert speed * (3 * WORD + n) <= 0x4000_0000 * (3 * WORD + n);
    LowStart(start);
    assert At(start, Evenly(speed), 0) == start;
    CalmSettles(start, Evenly(speed), 0, n);
  }

  lemma LowStart(start: nat)
    requires start < WORD
    ensures High(start) == 0
  {
  }

  function Min(x: int, y: int): int {
    if x < y then x else y
  }

  /**
   * The device. The interrupt rises in any cycle whose counter is at or past the comparand, and
   * stays up until the comparand is written. firings lists the counter values at which it rose.
   */
  class Device {
    const start: nat
    const gaps: nat -> nat
    var mtime: nat
    var mtimecmp: Word64
    var interrupt: bool
    var accesses: nat
    ghost var firings: seq<nat>

    /** The counter has not wrapped around 64 bits so far. */
    ghost predicate Valid()
      reads this
    {
      mtime == At(start, gaps, accesses) < WRAP
    }

    /** It will not have done so n accesses later. */
    predicate Room(n: nat)
      reads this
    {
      Calm(start, gaps, accesses, n)
    }

    /** It will not have done so when a read started now has returned and n more accesses are made. */
    ghost predicate RoomToRead(n: nat)
      reads this
    {
      Settles(start, gaps, accesses, n)
    }

    constructor (start0: Word64, gaps0: nat -> nat, cmp: Word64)
      ensures Valid() && mtime == start0 && mtimecmp == cmp && !interrupt && firings == []
    {
      start, gaps := start0, gaps0;
      mtime, mtimecmp, interrupt, accesses, firings := start0, cmp, false, 0, [];
    }

    /** The cycles before the next bus access, one after the other. */
    method Wait()
      requires Valid() && Room(1)
      modifies this
      ensures Valid() && accesses == old(accesses) + 1 && mtimecmp == old(mtimecmp)
      ensures mtime == old(mtime) + gaps(old(accesses))
      ensures interrupt == (old(interrupt) || (old(mtime) < mtime && mtimecmp < mtime))
      ensures firings == old(firings) +
              if !old(interrupt) && interrupt then [if old(mtime) < mtimecmp then mtimecmp else old(mtime)] else []
    {
      var n := gaps(accesses);
      for k := 0 to n
        invariant accesses == old(accesses) && mtimecmp == old(mtimecmp) && mtime == old(mtime) + k
        invariant interrupt == (old(interrupt) || (0 < k && mtimecmp < mtime))
        invariant firings == old(firings) +
                  if !old(interrupt) && interrupt then [if old(mtime) < mtimecmp then mtimecmp else old(mtime)] else []
      {
        if mtime >= mtimecmp && !interrupt {
          interrupt := true;
          firings := firings + [mtime];
        }
        mtime := mtime + 1;
      }
      accesses := accesses + 1;
    }

    method DevRead(r: Register) returns (w: Word32)
      requires Valid() && Room(1)
      modifies this
      ensures Valid() && accesses == old(accesses) + 1 && mtimecmp == old(mtimecmp)
      ensures w == match r
                   case MtimeLow => Low(mtime) case MtimeHigh => High(mtime)
                   case MtimecmpLow => Low(mtimecmp) case MtimecmpHigh => High(mtimecmp)
      ensures old(firings) <= firings
      ensures forall i :: |old(firings)| <= i < |firings| ==> mtimecmp <= firings[i]
    {
      Wait();
      match r {
        case MtimeLow => w := Low(mtime);
        case MtimeHigh => w := High(mtime);
        case MtimecmpLow => w := Low(mtimecmp);
        case MtimecmpHigh => w := High(mtimecmp);
      }
    }

    /** Writing either half of the comparand takes the interrupt down. */
    method DevWrite(r: Register, w: Word32)
      requires Valid() && Room(1) && (r.MtimecmpLow? || r.MtimecmpHigh?)
      modifies this
      ensures Valid() && accesses == old(accesses) + 1 && !interrupt
      ensures mtimecmp == if r.MtimecmpLow? then Join(High(old(mtimecmp)), w) else Join(w, Low(old(mtimecmp)))
      ensures old(firings) <= firings
      ensures forall i :: |old(firings)| <= i < |firings| ==> old(mtimecmp) <= firings[i]
    {
      Wait();
      if r.MtimecmpLow? {
        mtimecmp := Join(High(mtimecmp), w);
      } else {
        mtimecmp := Join(w, Low(mtimecmp));
      }
      interrupt := false;
    }

    /** One turn of the read loop: high, low, high again. */
    method Attempt() returns (high: Word32, low: Word32, again: Word32)
      requires Valid() && Room(3)
      modifies this
      ensures Valid() && mtimecmp == old(mtimecmp) && accesses == old(accesses) + 3
      ensures high == High(At(start, gaps, old(accesses) + 1)) && low == Low(At(start, gaps, old(accesses) + 2))
      ensures again == High(mtime) && high <= again && High(old(mtime)) <= high
      ensures high == again <==> Clean(start, gaps, old(accesses), 0)
      ensures old(firings) <= firings
      ensures forall i :: |old(firings)| <= i < |firings| ==> mtimecmp <= firings[i]
    {
      hide High, Low, At;
      Within(1, 3);
      high := DevRead(MtimeHigh);
      Within(1, 2);
      low := DevRead(MtimeLow);
      again := DevRead(MtimeHigh);
      Ordered(old(accesses), old(accesses) + 1, accesses);
    }

    /**
     * Tries until the high half has not moved. The result is a value the counter held during the
     * call; every further attempt has seen a larger high half, so the loop ends, at the first
     * clean attempt.
     */
    method TimerRead() returns (time: Word64)
      requires Valid() && RoomToRead(0)
      modifies this
      ensures Valid() && mtimecmp == old(mtimecmp)
      ensures exists k :: old(accesses) < k < accesses && time == At(start, gaps, k)
      ensures old(mtime) <= time <= mtime
      ensures forall k: nat :: Clean(start, gaps, old(accesses), k) ==> accesses <= old(accesses) + 3 * k + 3
      ensures old(firings) <= firings
      ensures forall i :: |old(firings)| <= i < |firings| ==> mtimecmp <= firings[i]
    {
      hide High, Low, Join, At, Clean, Settles;
      ghost var last: nat := CleanAttempt(0);
      ghost var tries: nat := 0;
      Within(3, 3 * last + 3);
      var high, low, again := Attempt();
      Later(old(accesses), 0);
      while high != again
        invariant Valid() && mtimecmp == old(mtimecmp)
        invariant accesses == old(accesses) + 3 * tries + 3
        invariant high == High(At(start, gaps, accesses - 2)) && low == Low(At(start, gaps, accesses - 1))
        invariant again == High(mtime) && high <= again
        invariant high == again <==> Clean(start, gaps, old(accesses), tries)
        invariant tries <= last && Calm(start, gaps, old(accesses), 3 * last + 3)
        invariant forall j :: 0 <= j < tries ==> !Clean(start, gaps, old(accesses), j)
        invariant old(firings) <= firings
        invariant forall i :: |old(firings)| <= i < |firings| ==> mtimecmp <= firings[i]
        decreases WORD - high
      {
        tries := tries + 1;
        Within(3, 3 * (last - tries) + 3);
        high, low, again := Attempt();
        Later(old(accesses), tries);
      }
      time := Join(high, low);
      Ordered(accesses - 2, accesses - 1, accesses);
      Ordered(old(accesses), accesses - 1, accesses);
      JoinHighLow(At(start, gaps, accesses - 1));
    }

    /** The k-th attempt from a is the first from 3 * k accesses on. */
    lemma Later(a: nat, k: nat)
      ensures Clean(start, gaps, a + 3 * k, 0) == Clean(start, gaps, a, k)
    {
      hide At, High;
    }

    lemma Settled(k: nat)
      requires Clean(start, gaps, accesses, k) && Room(3 * k + 6)
      ensures RoomToRead(0)
    {
      hide At, Clean;
      Within(3 * k + 3, 3 * k + 6);
    }

    lemma CleanAttempt(n: nat) returns (k: nat)
      requires RoomToRead(n)
      ensures Clean(start, gaps, accesses, k) && Room(3 * k + 3 + n)
    {
      hide Clean, Calm;
      k :| Clean(start, gaps, accesses, k) && Calm(start, gaps, accesses, 3 * k + 3 + n);
    }

    /** Room for n accesses is room for fewer. */
    lemma Within(m: nat, n: nat)
      requires Room(n) && m <= n
      ensures Room(m)
    {
      AtGrows(start, gaps, accesses + m, accesses + n);
    }

    lemma Ordered(i: nat, j: nat, k: nat)
      requires i <= j <= k
      ensures At(start, gaps, i) <= At(start, gaps, j) <= At(start, gaps, k)
      ensures High(At(start, gaps, i)) <= High(At(start, gaps, j)) <= High(At(start, gaps, k))
    {
      AtGrows(start, gaps, i, j);
      AtGrows(start, gaps, j, k);
      HighGrows(At(start, gaps, i), At(start, gaps, j));
      HighGrows(At(start, gaps, j), At(start, gaps, k));
    }

    /**
     * Low half to all ones, then the high half, then the low half: no comparand on the way is
     * below both the old and the new one, so the interrupt never rises before the earlier of them.
     */
    method TimecmpUpdate(newTime: Word64)
      requires Valid() && Room(3)
      modifies this
      ensures Valid() && mtimecmp == newTime && !interrupt
      ensures old(firings) <= firings
      ensures forall i :: |old(firings)| <= i < |firings| ==> Min(old(mtimecmp), newTime) <= firings[i]
      ensures accesses == old(accesses) + 3
    {
      Within(1, 3);
      DevWrite(MtimecmpLow, WORD - 1);
      AllOnesAbove(old(mtimecmp));
      Within(1, 2);
      DevWrite(MtimecmpHigh, High(newTime));
      AllOnesAbove(newTime);
      DevWrite(MtimecmpLow, Low(newTime));
      JoinHighLow(newTime);
    }

    /** The next deadline is base cycles after a value the counter held during the call. */
    method IncrementTimecmp(base: Word64) returns (time: Word64)
      requires Valid() && RoomToRead(3)
      modifies this
      ensures Valid() && !interrupt
      ensures old(mtime) <= time <= mtime && mtimecmp == (time + base) % WRAP
      ensures old(firings) <= firings
      ensures forall i :: |old(firings)| <= i < |firings| ==> Min(old(mtimecmp), mtimecmp) <= firings[i]
    {
      hide At, Clean, Settles, High, Low;
      ghost var last := CleanAttempt(3);
      Settled(last);
      time := TimerRead();
      label read:
      AtGrows(start, gaps, accesses + 3, old(accesses) + 3 * last + 6);
      TimecmpUpdate((time + base) % WRAP);
      AtGrows(start, gaps, old@read(accesses), accesses);
    }
  }

  /** All ones in the low half is the largest comparand with that high half. */
  lemma AllOnesAbove(x: Word64)
    ensures x <= Join(High(x), WORD - 1)
  {
  }

  /** The periodic interrupt handler with its globals. */
  class Clock {
    const device: Device
    var timeElapsed: Word64
    var timeIncrement: Word64

    constructor (d: Device)
      ensures device == d && timeElapsed == 0 && timeIncrement == 0
    {
      device, timeElapsed, timeIncrement := d, 0, 0;
    }

    method TimerEnable(base: Word64) returns (time: Word64)
      requires device.Valid() && device.RoomToRead(3)
      modifies this, device
      ensures device.Valid() && timeElapsed == 0 && timeIncrement == base
      ensures old(device.mtime) <= time <= device.mtime && device.mtimecmp == (time + base) % WRAP && !device.interrupt
    {
      timeElapsed, timeIncrement := 0, base;
      time := device.IncrementTimecmp(base);
    }

    /** Every handled interrupt counts once and moves the deadline one increment past the time of handling. */
    method SimpleTimerHandler() returns (time: Word64)
      requires device.Valid() && device.RoomToRead(3)
      modifies this, device
      ensures device.Valid() && timeElapsed == (old(timeElapsed) + 1) % WRAP && timeIncrement == old(timeIncrement)
      ensures old(device.mtime) <= time <= device.mtime
      ensures device.mtimecmp == (time + timeIncrement) % WRAP && !device.interrupt
      ensures forall i :: |old(device.firings)| <= i < |device.firings| ==>
                Min(old(device.mtimecmp), device.mtimecmp) <= device.firings[i]
    {
      time := device.IncrementTimecmp(timeIncrement);
      timeElapsed := (timeElapsed + 1) % WRAP;
    }
  }
}
