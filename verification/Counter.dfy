/**
  Kernel byte counters: two readings become one delta, which must tell growth, a 32-bit
  wrap, a reset and a spike apart. The truth about the traffic is kept beside the
  readings, and whole runs are compared with it.
 */
module Counter {
  import opened Traffic

  const U32: int := 0x1_0000_0000
  const U64: int := 0x1_0000_0000_0000_0000
  const MIB: int := 0x10_0000

  /** The bytes accepted, or none and a discarded spike. */
  datatype Outcome = Outcome(bytes: int, discarded: bool)

  predicate IsU64(x: int) {
    0 <= x < U64
  }

  /** An earlier reading within one tick of the 32-bit boundary; the subtraction saturates. */
  predicate NearWrap(prev: int, max: int) {
    (if max <= U32 then U32 - max else 0) <= prev < U32
  }

  /** The distance from `prev` up to `new`, modulo 2^32 or 2^64 if it is not positive. */
  function Distance(prev: int, cur: int): int {
    if cur >= prev then cur - prev
    else if prev > U32 then cur - prev + U64
    else U32 - prev + cur
  }

  function Delta(prev: int, cur: int, max: int): Outcome {
    if cur < prev && cur < MIB && !NearWrap(prev, max) then Outcome(cur, false)
    else if Distance(prev, cur) > max then Outcome(0, true)
    else Outcome(Distance(prev, cur), false)
  }

  // ---------- one delta ----------

  /** What a counter did between two looks at it. */
  datatype Interval =
    | Carries(bytes: nat)
    | Resets(before: nat, after: nat)
  {
    function Bytes(): nat {
      match this
      case Carries(bytes) => bytes
      case Resets(before, after) => before + after
    }
  }

  function Larger(x: int, y: int): int {
    if x >= y then x else y
  }

  /** Whatever the readings, no delta is negative or larger than a tick allows (or a reset below 1 MiB). */
  lemma DeltaBounds(prev: int, cur: int, max: int)
    requires IsU64(prev) && IsU64(cur) && 0 <= max
    ensures 0 <= Delta(prev, cur, max).bytes <= Larger(max, MIB - 1)
    ensures Delta(prev, cur, max).discarded ==> Delta(prev, cur, max).bytes == 0
  {
  }

  /** Growth is recorded exactly, or discarded when a tick cannot carry that much. */
  lemma GrowthExact(prev: int, t: int, max: int)
    requires IsU64(prev) && 0 <= t && IsU64(prev + t)
    ensures Delta(prev, prev + t, max) == if t > max then Outcome(0, true) else Outcome(t, false)
  {
  }

  /** A 32-bit counter that carried `t` bytes yields `t`, from every start, wrapped or not. */
  lemma WrapExact(prev: int, t: int, max: int)
    requires 0 <= prev < U32 && 0 <= t < U32 && t <= max
    ensures Delta(prev, (prev + t) % U32, max) == Outcome(t, false)
  {
    if prev + t >= U32 {
      assert (prev + t) % U32 == prev + t - U32;
    }
  }

  /** A 64-bit wrap is recorded exactly from above 2^32 and down to no less than 1 MiB, and only then. */
  lemma Wrap64ExactIff(prev: int, t: int, max: int)
    requires IsU64(prev) && 0 < t <= max < U64 && prev + t >= U64
    ensures Delta(prev, prev + t - U64, max) == Outcome(t, false) <==> prev > U32 && prev + t - U64 >= MIB
  {
  }

  /** Such a wrap of any size is recorded, or discarded when a tick cannot carry that much. */
  lemma Wrap64Accounted(prev: int, t: int, max: int)
    requires U32 < prev < U64 && 0 < t < U64 && prev + t - U64 >= MIB
    ensures Delta(prev, prev + t - U64, max) == if t > max then Outcome(0, true) else Outcome(t, false)
  {
  }

  /** A counter 1000 bytes below 2^64 carries 1500 and reads 500: taken for a reset, 1000 bytes are missed. */
  lemma SmallWrap64Missed(prev: int, max: int)
    requires prev == U64 - 1000 && 1500 <= max
    ensures Delta(prev, prev + 1500 - U64, max) == Outcome(500, false)
  {
  }

  /** A drop that is too large for a reset's first bytes and too far for a wrap is a spike. */
  lemma LargeDropDiscarded(prev: int, cur: int, max: int)
    requires MIB <= cur < prev && prev < U64
    requires if prev <= U32 then U32 - prev + cur > max else U64 - prev + cur > max
    ensures Delta(prev, cur, max) == Outcome(0, true)
  {
  }

  /** A drop to less than 1 MiB counts from zero, from every reading but those within `max` bytes of 2^32. */
  lemma SmallDropIsReset(prev: int, cur: int, max: int)
    requires 0 <= cur < prev && cur < MIB && 0 <= max && !(prev < U32 && U32 - prev <= max)
    ensures Delta(prev, cur, max) == Outcome(cur, false)
  {
  }

  /** Any other drop from at most 2^32 counts over the 32-bit boundary, if a tick can carry that much. */
  lemma DropOverBoundary(prev: int, cur: int, max: int)
    requires 0 <= cur < prev <= U32 && U32 - prev + cur <= max
    requires MIB <= cur || (prev < U32 && U32 - prev <= max)
    ensures Delta(prev, cur, max) == Outcome(U32 - prev + cur, false)
  {
  }

  /**
    Over all readings, exactly these are discarded: growth above the limit, a drop over the
    32-bit boundary that is near it or ends at 1 MiB or more, and a drop over the 64-bit one
    that ends at 1 MiB or more, each above the limit.
   */
  lemma DiscardedIff(prev: int, cur: int, max: int)
    requires IsU64(prev) && IsU64(cur) && 0 <= max
    ensures Delta(prev, cur, max).discarded
       <==> || cur > prev + max
            || (cur < prev <= U32 && (cur >= MIB || (prev < U32 && prev + max >= U32)) && U32 + cur > prev + max)
            || (cur < prev && prev > U32 && cur >= MIB && U64 + cur > prev + max)
  {
  }

  /**
    No reset from `prev` is mistaken for a wrap: neither for a 32-bit one within `max`
    bytes of 2^32, nor for a 64-bit one (which takes at least 1 MiB after the reset).
   */
  predicate Safe(prev: int, max: int) {
    !(0 < prev < U32 && U32 - prev <= max) && !(prev > U32 && U64 - prev + MIB <= max)
  }

  /** The bytes that a mistaken reset invents: those up to the boundary. */
  lemma PhantomBytes(prev: int, cur: int, max: int)
    requires IsU64(prev) && IsU64(cur)
    ensures Delta(prev, cur, max).bytes > cur ==>
              Delta(prev, cur, max).bytes == cur + (if prev > U32 then U64 - prev else U32 - prev)
  {
  }

  /** A reset during the interval is recorded as more bytes than the interval carried. */
  predicate Invents(prev: int, i: Interval, max: int) {
    i.Resets? && i.after < U64 && Delta(prev, i.after, max).bytes > i.Bytes()
  }

  lemma UnsafeInvents(prev: int, max: int, after: nat)
    requires IsU64(prev) && IsU64(max) && !Safe(prev, max) && after == if prev > U32 then MIB else 0
    ensures after < U64 && Delta(prev, after, max).bytes > after
  {
  }

  /** No reset invents bytes, whatever came before and after it, exactly from safe readings. */
  lemma NoPhantomIff(prev: int, max: int)
    requires IsU64(prev) && IsU64(max)
    ensures (forall i: Interval :: !Invents(prev, i, max)) <==> Safe(prev, max)
  {
    if !Safe(prev, max) {
      var after := if prev > U32 then MIB else 0;
      UnsafeInvents(prev, max, after);
      assert Invents(prev, Resets(0, after), max);
    } else {
      forall i: Interval ensures !Invents(prev, i, max) {
        if i.Resets? && i.after < U64 {
          SafeReset(prev, i.after, max);
        }
      }
    }
  }

  lemma SafeReset(prev: int, after: int, max: int)
    requires IsU64(prev) && IsU64(after) && Safe(prev, max)
    ensures Delta(prev, after, max).bytes <= after
  {
  }

  /** A small reading after a reset from a safe reading is all that the counter carried since. */
  lemma ResetExact(prev: int, after: int, max: int)
    requires IsU64(prev) && 0 <= after < prev && after < MIB && Safe(prev, max)
    ensures Delta(prev, after, max) == Outcome(after, false)
  {
  }

  // ---------- runs ----------

  /**
    The daemon's look at the end of an interval. It does not see the counter when the
    interface is missing or excluded, or when it skips the tick after a suspend. It may read
    a counter for the next baseline only, without measuring.
   */
  datatype Look = Look(seen: bool, measures: bool, max: nat)

  /** A counter and its books: every byte carried is recorded, or dropped for one of two reasons. */
  datatype Meter = Meter(value: int, baseline: Option<int>, carried: int, recorded: int, spiked: int, unseen: int)

  function Start(value: int): Meter {
    Meter(value, None, 0, 0, 0, 0)
  }

  /** The reading after an interval, on a counter that wraps at `width`. */
  function Reading(value: int, i: Interval, width: int): int
    requires width > 0
  {
    match i
    case Carries(bytes) => (value + bytes) % width
    case Resets(_, after) => after % width
  }

  function Advance(m: Meter, i: Interval, look: Look, width: int): Meter
    requires width > 0
  {
    var value := Reading(m.value, i, width);
    var next := m.(value := value, carried := m.carried + i.Bytes());
    if !look.seen then next.(baseline := None, unseen := m.unseen + i.Bytes())
    else if m.baseline.None? || !look.measures then next.(baseline := Some(value), unseen := m.unseen + i.Bytes())
    else
      var d := Delta(m.baseline.value, value, look.max);
      next.(baseline := Some(value), recorded := m.recorded + d.bytes,
            spiked := m.spiked + (if d.discarded then i.Bytes() else 0))
  }

  function MeterTo(value: int, truth: seq<Interval>, looks: seq<Look>, n: nat, width: int): Meter
    requires n <= |truth| && n <= |looks| && width > 0
  {
    if n == 0 then Start(value)
    else Advance(MeterTo(value, truth, looks, n - 1, width), truth[n - 1], looks[n - 1], width)
  }

  /** A baseline is always the reading at the previous look: it is renewed or dropped every time. */
  lemma {:induction false} BaselineIsCurrent(value: int, truth: seq<Interval>, looks: seq<Look>, n: nat, width: int)
    requires n <= |truth| && n <= |looks| && 0 <= value < width
    ensures var m := MeterTo(value, truth, looks, n, width);
            0 <= m.value < width && (m.baseline.Some? ==> m.baseline.value == m.value)
  {
    if n > 0 {
      BaselineIsCurrent(value, truth, looks, n - 1, width);
    }
  }

  /** The widths of kernel counters. */
  type Width = w: int | w == U32 || w == U64 witness U64

  /** A look that finds a baseline is the only one that computes a delta. */
  predicate Compares(m: Meter, look: Look) {
    look.seen && look.measures && m.baseline.Some?
  }

  /**
    The counter does not reset, and where a delta is computed it did not wrap in a way that
    no reading could show: on 32 bits it carried at most what a tick allows, on 64 bits it
    wrapped, if at all, from above 2^32 and past the first MiB.
   */
  predicate Faithful(m: Meter, i: Interval, look: Look, width: Width) {
    && i.Carries?
    && (Compares(m, look) ==>
          if width == U32 then i.bytes <= look.max && i.bytes < U32
          else m.value + i.bytes < U64 || (U32 < m.value && i.bytes < U64 && m.value + i.bytes - U64 >= MIB))
  }

  ghost predicate FaithfulTo(value: int, truth: seq<Interval>, looks: seq<Look>, n: nat, width: Width)
    requires n <= |truth| && n <= |looks|
  {
    n == 0 || (FaithfulTo(value, truth, looks, n - 1, width)
      && Faithful(MeterTo(value, truth, looks, n - 1, width), truth[n - 1], looks[n - 1], width))
  }

  /** Where a delta is computed, a reset reads less than before and less than 1 MiB, or drops beyond the limit. */
  predicate Visible(m: Meter, i: Interval, look: Look, width: Width) {
    if i.Carries? then Faithful(m, i, look, width)
    else
      && i.after < width
      && (Compares(m, look) ==>
            && i.after < m.value && Safe(m.value, look.max)
            && (i.after >= MIB ==> (if m.value <= U32 then U32 else U64) + i.after > m.value + look.max))
  }

  ghost predicate VisibleTo(value: int, truth: seq<Interval>, looks: seq<Look>, n: nat, width: Width)
    requires n <= |truth| && n <= |looks|
  {
    n == 0 || (VisibleTo(value, truth, looks, n - 1, width)
      && Visible(MeterTo(value, truth, looks, n - 1, width), truth[n - 1], looks[n - 1], width))
  }

  /** Bytes that a small reset wipes out: those between the last look and the reset. */
  function WipedTo(value: int, truth: seq<Interval>, looks: seq<Look>, n: nat, width: Width): int
    requires n <= |truth| && n <= |looks|
  {
    if n == 0 then 0
    else
      WipedTo(value, truth, looks, n - 1, width)
      + (if Compares(MeterTo(value, truth, looks, n - 1, width), looks[n - 1])
            && truth[n - 1].Resets? && truth[n - 1].after < MIB
         then truth[n - 1].before else 0)
  }

  /** A reset that is read at 1 MiB or more beyond the limit is a spike: all its bytes, and nothing is recorded. */
  lemma ResetSpikes(m: Meter, i: Interval, look: Look, width: Width)
    requires Compares(m, look) && m.baseline.value == m.value && 0 <= m.value < width
    requires i.Resets? && MIB <= i.after < m.value
    requires (if m.value <= U32 then U32 else U64) + i.after > m.value + look.max
    ensures Advance(m, i, look, width)
         == m.(value := i.after, baseline := Some(i.after), carried := m.carried + i.before + i.after,
               spiked := m.spiked + i.before + i.after)
  {
    Unwrapped(i.after, width);
    LargeDropDiscarded(m.value, i.after, look.max);
  }

  lemma VisibleNext(m: Meter, i: Interval, look: Look, width: Width)
    requires 0 <= m.value < width && (m.baseline.Some? ==> m.baseline.value == m.value)
    requires Visible(m, i, look, width)
    ensures var next := Advance(m, i, look, width);
            next.recorded + next.spiked + next.unseen
            + (if Compares(m, look) && i.Resets? && i.after < MIB then i.before else 0)
            == m.recorded + m.spiked + m.unseen + i.Bytes()
  {
    if i.Carries? {
      AccountedNext(m, i, look, width);
    } else if Compares(m, look) {
      if i.after >= MIB {
        ResetSpikes(m, i, look, width);
      } else {
        Unwrapped(i.after, width);
        ResetExact(m.value, i.after, look.max);
      }
    }
  }

  /**
    The books with resets: every byte carried is recorded, dropped with a spike or a missing
    baseline, or wiped out by a reset before the next look.
   */
  lemma {:induction false} ResetsAccounted(value: int, truth: seq<Interval>, looks: seq<Look>, n: nat, width: Width)
    requires n <= |truth| && n <= |looks| && 0 <= value < width
    requires VisibleTo(value, truth, looks, n, width)
    ensures var m := MeterTo(value, truth, looks, n, width);
            m.carried == m.recorded + m.spiked + m.unseen + WipedTo(value, truth, looks, n, width)
  {
    if n > 0 {
      ResetsAccounted(value, truth, looks, n - 1, width);
      BaselineIsCurrent(value, truth, looks, n - 1, width);
      VisibleNext(MeterTo(value, truth, looks, n - 1, width), truth[n - 1], looks[n - 1], width);
    }
  }

  /** In a run: from a 32-bit reading too far from the boundary, such a reset is dropped as a spike. */
  lemma ResetSpikesInRun(value: int, truth: seq<Interval>, looks: seq<Look>, n: nat, width: Width)
    requires n < |truth| && n < |looks| && 0 <= value < width
    requires var m := MeterTo(value, truth, looks, n, width);
             && Compares(m, looks[n]) && truth[n].Resets? && MIB <= truth[n].after < m.value < U32
             && U32 - m.value + truth[n].after > looks[n].max
    ensures var (m, next) := (MeterTo(value, truth, looks, n, width), MeterTo(value, truth, looks, n + 1, width));
            next.recorded == m.recorded && next.spiked == m.spiked + truth[n].before + truth[n].after
  {
    BaselineIsCurrent(value, truth, looks, n, width);
    ResetSpikes(MeterTo(value, truth, looks, n, width), truth[n], looks[n], width);
  }

  lemma ReadingExact(value: int, i: Interval, width: Width)
    requires i.Carries? && 0 <= value < width
    ensures value + i.bytes < width ==> Reading(value, i, width) == value + i.bytes
    ensures width <= value + i.bytes < 2 * width ==> Reading(value, i, width) == value + i.bytes - width
  {
    if width == U32 {
      assert value + i.bytes < U32 ==> (value + i.bytes) % U32 == value + i.bytes;
    }
  }

  lemma AccountedNext(m: Meter, i: Interval, look: Look, width: Width)
    requires 0 <= m.value < width && (m.baseline.Some? ==> m.baseline.value == m.value)
    requires Faithful(m, i, look, width)
    ensures var next := Advance(m, i, look, width);
            && next.recorded + next.spiked + next.unseen == m.recorded + m.spiked + m.unseen + i.Bytes()
            && (width == U32 ==> next.spiked == m.spiked)
  {
    ReadingExact(m.value, i, width);
    if Compares(m, look) {
      if width == U32 {
        WrapExact(m.value, i.bytes, look.max);
      } else if m.value + i.bytes < U64 {
        GrowthExact(m.value, i.bytes, look.max);
      } else {
        Wrap64Accounted(m.value, i.bytes, look.max);
      }
    }
  }

  lemma Remainder32(x: int, y: int)
    ensures (x % U32 + y) % U32 == (x + y) % U32
  {
    assert x + y == U32 * (x / U32) + (x % U32 + y);
  }

  lemma Remainder64(x: int, y: int)
    ensures (x % U64 + y) % U64 == (x + y) % U64
  {
    assert x + y == U64 * (x / U64) + (x % U64 + y);
  }

  lemma ReadingAdds(value: int, bytes: int, width: Width)
    ensures (value % width + bytes) % width == (value + bytes) % width
  {
    if width == U32 {
      Remainder32(value, bytes);
    } else {
      Remainder64(value, bytes);
    }
  }

  lemma AdvanceReads(m: Meter, i: Interval, look: Look, width: Width, value: int)
    requires i.Carries? && m.value == (value + m.carried) % width
    ensures var next := Advance(m, i, look, width); next.value == (value + next.carried) % width
  {
    ReadingAdds(value + m.carried, i.bytes, width);
  }

  lemma {:induction false} ReadingAdvances(value: int, truth: seq<Interval>, looks: seq<Look>, n: nat, width: Width)
    requires n <= |truth| && n <= |looks| && 0 <= value < width && FaithfulTo(value, truth, looks, n, width)
    ensures var m := MeterTo(value, truth, looks, n, width);
            m.carried >= 0 && m.value == (value + m.carried) % width
  {
    if n > 0 {
      ReadingAdvances(value, truth, looks, n - 1, width);
      AdvanceReads(MeterTo(value, truth, looks, n - 1, width), truth[n - 1], looks[n - 1], width, value);
    } else {
      Unwrapped(value, width);
    }
  }

  lemma Unwrapped(x: int, width: Width)
    requires 0 <= x < width
    ensures x % width == x
  {
    if width == U32 {
      assert x % U32 == x;
    }
  }

  /** The reading is the first one advanced by all that was carried, modulo the width. */
  lemma ReadingIsCarried(value: int, truth: seq<Interval>, looks: seq<Look>, n: nat, width: Width)
    requires n <= |truth| && n <= |looks| && 0 <= value < width
    requires FaithfulTo(value, truth, looks, n, width)
    ensures var m := MeterTo(value, truth, looks, n, width);
            && m.carried >= 0 && m.value == (value + m.carried) % width
            && (value + m.carried < width ==> m.value == value + m.carried)
  {
    var carried := MeterTo(value, truth, looks, n, width).carried;
    ReadingAdvances(value, truth, looks, n, width);
    if value + carried < width {
      Unwrapped(value + carried, width);
    }
  }

  /**
    Telescoping: on a counter that does not reset, every byte carried is recorded, or was
    dropped with a spike or a missing baseline. On a 32-bit counter spikes never happen.
   */
  lemma {:induction false} EveryByteAccounted(value: int, truth: seq<Interval>, looks: seq<Look>, n: nat, width: Width)
    requires n <= |truth| && n <= |looks| && 0 <= value < width
    requires FaithfulTo(value, truth, looks, n, width)
    ensures var m := MeterTo(value, truth, looks, n, width);
            m.carried == m.recorded + m.spiked + m.unseen && (width == U32 ==> m.spiked == 0)
  {
    if n > 0 {
      EveryByteAccounted(value, truth, looks, n - 1, width);
      BaselineIsCurrent(value, truth, looks, n - 1, width);
      AccountedNext(MeterTo(value, truth, looks, n - 1, width), truth[n - 1], looks[n - 1], width);
    }
  }

  /** On either width, whatever the counter carried without a reset, no delta is larger, wrapped or not. */
  lemma GrowthNeverExceeded(prev: int, t: int, max: int, width: Width)
    requires 0 <= prev < width && 0 <= t && 0 <= max
    ensures 0 <= Delta(prev, (prev + t) % width, max).bytes <= t
  {
    if width == U32 {
      GrowthBound32(prev, t, (prev + t) % U32, (prev + t) / U32, max);
    } else {
      GrowthBound64(prev, t, (prev + t) % U64, (prev + t) / U64, max);
    }
  }

  lemma GrowthBound32(prev: int, t: int, cur: int, wraps: int, max: int)
    requires 0 <= prev < U32 && 0 <= cur < U32 && 0 <= t && 0 <= wraps && prev + t == wraps * U32 + cur && 0 <= max
    ensures 0 <= Delta(prev, cur, max).bytes <= t
  {
  }

  lemma GrowthBound64(prev: int, t: int, cur: int, wraps: int, max: int)
    requires 0 <= prev < U64 && 0 <= cur < U64 && 0 <= t && 0 <= wraps && prev + t == wraps * U64 + cur && 0 <= max
    ensures 0 <= Delta(prev, cur, max).bytes <= t
  {
  }

  /** The counter resets, where a delta is computed, from safe readings only. */
  predicate Honest(m: Meter, i: Interval, look: Look, width: Width) {
    i.Resets? ==> i.after < width && (Compares(m, look) ==> Safe(m.baseline.value, look.max))
  }

  ghost predicate HonestTo(value: int, truth: seq<Interval>, looks: seq<Look>, n: nat, width: Width)
    requires n <= |truth| && n <= |looks|
  {
    n == 0 || (HonestTo(value, truth, looks, n - 1, width)
      && Honest(MeterTo(value, truth, looks, n - 1, width), truth[n - 1], looks[n - 1], width))
  }

  /** No phantom traffic over whole runs of either width, through wraps, resets, gaps, hot-plug and spikes. */
  lemma {:induction false} NothingInvented(value: int, truth: seq<Interval>, looks: seq<Look>, n: nat, width: Width)
    requires n <= |truth| && n <= |looks| && 0 <= value < width && HonestTo(value, truth, looks, n, width)
    ensures var m := MeterTo(value, truth, looks, n, width);
            0 <= m.recorded && m.recorded + m.spiked + m.unseen <= m.carried
  {
    if n > 0 {
      NothingInvented(value, truth, looks, n - 1, width);
      BaselineIsCurrent(value, truth, looks, n - 1, width);
      NothingInventedNext(MeterTo(value, truth, looks, n - 1, width), truth[n - 1], looks[n - 1], width);
    }
  }

  lemma NothingInventedNext(m: Meter, i: Interval, look: Look, width: Width)
    requires 0 <= m.value < width && (m.baseline.Some? ==> m.baseline.value == m.value) && Honest(m, i, look, width)
    ensures var next := Advance(m, i, look, width);
            0 <= next.recorded - m.recorded
            && next.recorded - m.recorded + (next.spiked - m.spiked) + (next.unseen - m.unseen) <= i.Bytes()
  {
    if Compares(m, look) {
      var value := Reading(m.value, i, width);
      match i
      case Carries(bytes) =>
        GrowthNeverExceeded(m.value, bytes, look.max, width);
        DeltaBounds(m.value, value, look.max);
      case Resets(_, after) =>
        Unwrapped(after, width);
        DeltaBounds(m.value, after, look.max);
        SafeReset(m.value, after, look.max);
    }
  }
}
