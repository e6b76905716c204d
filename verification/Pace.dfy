/**
 The writer pacing of experiments/dcache/dcache_bench_pace.h: an absolute schedule with
 bounded catch-up.  The clock is a parameter: the samples that a call may read, in order.
 */
module Pace {
  const SLACK: int := 1000000

  /** pace_init over reals: the rounded share of a writer; 0 means unpaced. */
  function Period(rate: real, writers: int): int {
    var p := if rate > 0.0 && writers > 0 then (1000000000.0 * writers as real / rate + 0.5).Floor else 0;
    if rate > 0.0 && p < 1 then 1 else p
  }

  /** A writer is unpaced exactly if the rate is not positive; otherwise the period is the exact share, rounded, but at least 1 ns. */
  lemma PeriodRounds(rate: real, writers: int)
    ensures Period(rate, writers) == 0 <==> rate <= 0.0
    ensures rate > 0.0 && writers > 0 ==>
              var exact := 1000000000.0 * writers as real / rate;
              exact >= 0.5 ==> exact - 0.5 < Period(rate, writers) as real <= exact + 0.5
  {
    if rate > 0.0 && writers > 0 {
      var exact := 1000000000.0 * writers as real / rate;
      if exact >= 0.5 {
        assert (exact + 0.5).Floor >= 1;
      }
    }
  }

  /** One release: the slot of the schedule it used, when the call came, and when it returned. */
  datatype Release = Release(slot: int, entry: int, at: int)

  /** Calls come one after another; a slot is used on time, or late by at most the slack, or waited for. */
  predicate Follows(period: int, a: Release, b: Release) {
    && a.at <= b.entry <= b.at && b.slot <= b.at
    && b.slot == (if b.entry - (a.slot + period) > SLACK then b.entry - SLACK else a.slot + period)
    && (b.entry >= a.slot + period ==> b.at == b.entry)
  }

  predicate First(a: Release) { a.slot == a.entry == a.at && a.entry >= 0 }

  ghost predicate Schedule(period: int, log: seq<Release>) {
    && (log != [] ==> First(log[0]))
    && (forall k, l :: 0 <= k < |log| && l == k + 1 && l < |log| ==> Follows(period, log[k], log[l]))
  }

  /** Sample i is the first that has reached the slot. */
  predicate FirstAt(clock: seq<int>, slot: int, i: int) {
    0 <= i < |clock| && clock[i] >= slot && forall k :: 0 <= k < i ==> clock[k] < slot
  }

  datatype Outcome = Go | Stopped | Waiting

  class Pacer {
    const period: int
    var next: int
    ghost var log: seq<Release>

    ghost predicate Valid()
      reads this
    {
      && period >= 0 && Schedule(period, log)
      && (if log == [] then next == 0 else period > 0 && next == log[|log| - 1].slot + period && next > 0)
    }

    /** When the last call returned. */
    ghost function Last(): int
      reads this
    {
      if log == [] then 0 else log[|log| - 1].at
    }

    constructor (rate: real, writers: int)
      ensures Valid() && period == Period(rate, writers) && log == []
    {
      PeriodRounds(rate, writers);
      period := Period(rate, writers);
      next, log := 0, [];
    }

    /**
     pace_wait: clock[0] is the time of the call, the others are what the spin reads;
     stop[i] is whether the run has ended when the i-th turn of the spin looks.  Waiting
     means the spin is still going on when the samples end.
     */
    method Wait(clock: seq<int>, stop: seq<bool>) returns (r: Outcome)
      requires Valid() && clock != [] && |stop| == |clock| && clock[0] >= 0 && clock[0] >= Last()
      requires forall i, j :: 0 <= i < j < |clock| ==> clock[i] <= clock[j]
      modifies this
      ensures Valid()
      ensures period == 0 ==> r.Go? && log == old(log) && next == old(next)
      ensures period > 0 && r.Go? ==>
                |log| == |old(log)| + 1 && log[..|old(log)|] == old(log) && log[|old(log)|].entry == clock[0]
                && exists i :: FirstAt(clock, old(next), i) && log[|old(log)|].at == clock[i]
      ensures !r.Go? ==> log == old(log) && next == old(next) && clock[0] < next
      ensures r.Stopped? <==> period > 0 && exists i :: 0 <= i < |clock| && clock[i] < old(next) && stop[i]
      ensures r.Waiting? ==> forall i :: 0 <= i < |clock| ==> clock[i] < old(next)
    {
      if period == 0 { return Go; }
      var i := 0;
      var now := clock[0];
      if next == 0 { next := now; }
      if now < next {
        while now < next
          invariant 0 <= i < |clock| && now == clock[i] && next == old(next)
          invariant forall k :: 0 <= k < i ==> clock[k] < next && !stop[k]
          decreases |clock| - i
        {
          if stop[i] { return Stopped; }
          i := i + 1;
          if i == |clock| { return Waiting; }
          now := clock[i];
        }
      } else if now - next > SLACK {
        next := now - SLACK;
      }
      assert FirstAt(clock, old(next), i);
      log := log + [Release(next, clock[0], now)];
      next := next + period;
      r := Go;
    }
  }

  // ---- what a schedule guarantees -----------------------------------------

  lemma {:induction false} SlotsAdvance(period: int, log: seq<Release>, i: int, j: int)
    requires period > 0 && Schedule(period, log) && 0 <= i <= j < |log|
    ensures log[j].slot >= log[i].slot + (j - i) * period && log[j].at >= log[i].at && log[j].slot <= log[j].at
    decreases j - i
  {
    if i < j {
      SlotsAdvance(period, log, i, j - 1);
      assert Follows(period, log[j - 1], log[j]);
      assert (j - i) * period == (j - 1 - i) * period + period;
    } else if j > 0 {
      assert Follows(period, log[j - 1], log[j]);
    }
  }

  /** Release k is never before start + k * period, whatever preempts the writer. */
  lemma NeverEarly(period: int, log: seq<Release>, k: int)
    requires period > 0 && Schedule(period, log) && 0 <= k < |log|
    ensures log[k].at >= log[0].at + k * period
  {
    SlotsAdvance(period, log, 0, k);
  }

  /** Any window of length `span` holds at most 2 + (span + SLACK) / period releases. */
  lemma BurstBound(period: int, log: seq<Release>, i: int, j: int, span: int)
    requires period > 0 && Schedule(period, log) && 0 <= i <= j < |log| && log[j].at - log[i].at <= span
    ensures j - i + 1 <= 2 + (span + SLACK) / period
  {
    SlotsAdvance(period, log, i, j);
    if i < j {
      assert Follows(period, log[i], log[i + 1]);
      SlotsAdvance(period, log, i + 1, j);
      assert log[i + 1].slot >= log[i].at - SLACK;
      DivAtLeast(span + SLACK, period, j - i - 1);
    } else {
      DivAtLeast(span + SLACK, period, 0);
    }
  }

  lemma {:induction false} DivAtLeast(x: int, period: int, n: int)
    requires period > 0 && n >= 0 && n * period <= x
    ensures n <= x / period
    decreases n
  {
    var q := x / period;
    assert x < (q + 1) * period;
    MulOrder(n, q + 1, period);
  }

  lemma MulOrder(n: int, m: int, period: int)
    requires period > 0 && n * period < m * period
    ensures n < m
  {
    assert (m - n) * period > 0;
  }

  /** The schedule has no drift exactly as long as no call comes more than the slack late. */
  lemma {:induction false} NoDriftIff(period: int, log: seq<Release>, k: int)
    requires period > 0 && Schedule(period, log) && 0 <= k < |log|
    ensures (forall l :: 0 <= l <= k ==> log[l].slot == log[0].slot + l * period)
       <==> (forall l :: 0 <= l <= k ==> log[l].entry - (log[0].slot + l * period) <= SLACK)
    decreases k
  {
    if k > 0 {
      NoDriftIff(period, log, k - 1);
      assert Follows(period, log[k - 1], log[k]);
      assert k * period == (k - 1) * period + period;
      SlotsAdvance(period, log, 0, k);
    }
  }
}
