/** `get_acpi_time`: a 24-bit counter is extended to 64 bits by all CPUs together, without a
    lock.  Its three accesses to shared state are three steps, in any interleaving. */
module AcpiTime {

  const WRAP: int := 16777216

  /** The arithmetic of `get_acpi_time` on a stored value and a raw reading. */
  function Extended(oldnow: int, raw: int): int {
    var oldtmr := oldnow % WRAP;
    if raw == oldtmr then oldnow
    else
      var tmr := if raw < oldtmr then raw + WRAP else raw;
      oldnow + (tmr - oldtmr)
  }

  /** The extension is right exactly when less than one turn of the counter has passed since
      the stored value. */
  lemma ExtendedExact(oldnow: int, tick: int)
    requires 0 <= oldnow <= tick
    ensures Extended(oldnow, tick % WRAP) == tick <==> tick - oldnow < WRAP
    ensures oldnow <= Extended(oldnow, tick % WRAP) <= tick
  {
  }

  /** Ticks of 3579545 per second in microseconds. */
  function Scaled(now: int): int {
    now * 1000000 / 3579545
  }

  /** `r` is the number of whole microseconds in `now` ticks. */
  ghost predicate Micros(now: int, r: int) {
    r * 3579545 <= now * 1000000 < (r + 1) * 3579545
  }

  lemma ScaledIs(now: int)
    ensures Micros(now, Scaled(now))
  {
  }

  lemma ScaledMonotone(a: int, b: int)
    requires 0 <= a <= b
    ensures 0 <= Scaled(a) <= Scaled(b) <= b
  {
    DivMonotone(a * 1000000, b * 1000000);
  }

  lemma DivMonotone(x: int, y: int)
    requires 0 <= x <= y
    ensures 0 <= x / 3579545 <= y / 3579545
  {
  }

  /** Where a CPU is in `get_acpi_time`. */
  datatype Phase = Idle | Loaded(oldnow: int) | Computed(oldnow: int, now: int)

  /** A call that has returned: the true number of ticks at its raw reading, what it took them
      to be, and its result in microseconds. */
  datatype Call = Call(tick: int, now: int, r: int)

  ghost predicate PhaseOk(x: Phase, last: int, tick: int, ticks: int) {
    match x
    case Idle => true
    case Loaded(oldnow) => 0 <= oldnow <= last
    case Computed(oldnow, now) =>
      0 <= oldnow <= last && oldnow <= now <= tick <= ticks && (now == tick <==> tick - oldnow < WRAP)
  }

  class Clock {
    /** `lastacpitime` */
    var last: int
    var cpu: map<int, Phase>

    /** The true number of ticks, of which the hardware shows the low 24 bits. */
    ghost var ticks: int
    /** The number at the last raw reading of each CPU. */
    ghost var read: map<int, int>
    ghost var calls: seq<Call>

    ghost predicate Valid()
      reads this
    {
      && 0 <= last <= ticks
      && (forall i :: i in cpu ==> i in read && PhaseOk(cpu[i], last, read[i], ticks))
      && (forall k :: 0 <= k < |calls| ==>
        0 <= calls[k].now <= calls[k].tick <= ticks && calls[k].r == Scaled(calls[k].now))
    }

    constructor (cpus: set<int>, ghost start: int)
      requires 0 <= start
      ensures Valid() && last == 0 && ticks == start && cpu.Keys == cpus && calls == []
    {
      last, ticks, calls := 0, start, [];
      cpu := map i | i in cpus :: Idle;
      read := map i | i in cpus :: 0;
    }

    ghost method Advance(n: nat)
      requires Valid()
      modifies this`ticks
      ensures Valid() && ticks == old(ticks) + n
    {
      ticks := ticks + n;
    }

    /** The first compare-exchange, which only reads. */
    method Load(i: int)
      requires Valid() && i in cpu
      modifies this`cpu
      ensures Valid() && cpu == old(cpu)[i := Loaded(last)]
    {
      cpu := cpu[i := Loaded(last)];
    }

    /** The raw reading, when it fails. */
    method GiveUp(i: int) returns (ok: bool)
      requires Valid() && i in cpu && cpu[i].Loaded?
      modifies this`cpu
      ensures Valid() && !ok && cpu == old(cpu)[i := Idle]
    {
      cpu := cpu[i := Idle];
      ok := false;
    }

    /** The raw reading and the arithmetic.  The result is never ahead of the true number of
        ticks, and is that number exactly if fewer than `WRAP` ticks separate the reading from
        the value loaded before. */
    method Compute(i: int, raw: int)
      requires Valid() && i in cpu && cpu[i].Loaded? && raw == ticks % WRAP
      modifies this`cpu, this`read
      ensures Valid() && i in cpu && cpu[i].Computed? && cpu == old(cpu)[i := cpu[i]] && read == old(read)[i := ticks]
      ensures cpu[i].oldnow == old(cpu[i].oldnow) <= cpu[i].now <= ticks
      ensures cpu[i].now == ticks <==> ticks - cpu[i].oldnow < WRAP
    {
      ExtendedExact(cpu[i].oldnow, ticks);
      var oldnow := cpu[i].oldnow;
      var oldtmr := oldnow % WRAP;
      var tmr, now := raw, oldnow;
      if tmr != oldtmr {
        if tmr < oldtmr {
          tmr := tmr + WRAP;
        }
        now := now + (tmr - oldtmr);
      }
      cpu := cpu[i := Computed(oldnow, now)];
      read := read[i := ticks];
    }

    /** The second compare-exchange, and the scaling.  Whoever wins the race, and however late,
        the stored value moves forward and not past the present. */
    method Publish(i: int) returns (r: int)
      requires Valid() && i in cpu && cpu[i].Computed?
      modifies this`cpu, this`last, this`calls
      ensures Valid() && old(last) <= last <= ticks && cpu == old(cpu)[i := Idle]
      ensures last == if old(last) == old(cpu[i].oldnow) then old(cpu[i].now) else old(last)
      ensures i in read && calls == old(calls) + [Call(read[i], old(cpu[i].now), r)]
      ensures Micros(old(cpu[i].now), r) && (read[i] - old(cpu[i].oldnow) < WRAP ==> Micros(read[i], r))
      ensures ticks < 0x1_0000_0000_0000_0000 ==> 0 <= r < 0x1_0000_0000_0000_0000
    {
      var oldnow, now := cpu[i].oldnow, cpu[i].now;
      if last == oldnow {
        last := now;
      }
      ScaledMonotone(now, ticks);
      ScaledIs(now);
      r := Scaled(now);
      cpu := cpu[i := Idle];
      calls := calls + [Call(read[i], now, r)];
    }

    /** Results never run backwards in real time: of two calls, whoever made them and in
        whichever order they returned, the one with the later raw reading has the greater result,
        if that reading was extended in time. */
    lemma Monotone(x: Call, y: Call)
      requires Valid() && x in calls && y in calls && x.tick <= y.tick && y.now == y.tick
      ensures 0 <= x.r <= y.r && Micros(y.tick, y.r)
    {
      ScaledIs(y.now);
      var i :| 0 <= i < |calls| && calls[i] == x;
      var j :| 0 <= j < |calls| && calls[j] == y;
      ScaledMonotone(x.now, y.now);
    }
  }
}
