/** The client's capture timer: how far apart its callbacks start. */
module Timers {
  import opened Bytes
  import opened Messages
  import P = Protocol

  const NS_PER_MS := 1_000_000

  /** One run of the callback, by the steady clock in nanoseconds. */
  datatype Call = Call(start: int, end: int)

  /** Time passes: ns nanoseconds, and as much more as it is late. */
  method Wait(now: int, ns: nat) returns (later: int, late: nat)
    ensures later == now + ns + late
  {
    late := *;
    later := now + ns + late;
  }

  ghost predicate Paced(calls: seq<Call>, timeout: int) {
    && (forall i :: 0 <= i < |calls| ==> calls[i].start <= calls[i].end)
    && (forall i :: 0 < i < |calls| ==> calls[i].start - calls[i - 1].start >= timeout * NS_PER_MS)
  }

  /** How many callbacks are run, given what the job's loads of the stop flag return, one after another. */
  function Callbacks(flags: seq<bool>): (n: nat)
    ensures n <= |flags| && (forall i :: 0 <= i < n ==> !flags[i]) && (n < |flags| ==> flags[n])
  {
    if flags == [] || flags[0] then 0 else 1 + Callbacks(flags[1..])
  }

  lemma CallbacksAre(flags: seq<bool>, n: nat)
    requires n <= |flags| && (forall i :: 0 <= i < n ==> !flags[i]) && (n < |flags| ==> flags[n])
    ensures Callbacks(flags) == n
  {
    var m := Callbacks(flags);
  }

  /** And no further apart than the timeout and a millisecond, or the callback itself if that takes longer, but for how
      late the job was woken. */
  ghost predicate Prompt(calls: seq<Call>, lates: seq<nat>, timeout: int)
    requires |lates| == |calls|
  {
    forall i :: 0 < i < |calls| ==>
                  var took := calls[i - 1].end - calls[i - 1].start;
                  calls[i].start - calls[i - 1].start
                  <= (if took > (timeout + 1) * NS_PER_MS then took else (timeout + 1) * NS_PER_MS) + lates[i]
  }

  /** The timer's job, for as long as it has run: `flags` is what its loads of the stop flag have returned so far. A
      callback is run for each load up to the first that is set, and none after it; and whatever the clock does, they
      start at least `timeout` milliseconds apart, and promptly. */
  method Job(timeout: int, flags: seq<bool>) returns (calls: seq<Call>, lates: seq<nat>)
    ensures |calls| == Callbacks(flags) && Paced(calls, timeout)
    ensures |lates| == |calls| && Prompt(calls, lates, timeout)
  {
    calls, lates := [], [];
    var now, overslept: nat := 0, 0;
    while |calls| < |flags| && !flags[|calls|]
      invariant |calls| == |lates| <= |flags| && Paced(calls, timeout) && Prompt(calls, lates, timeout)
      invariant forall i :: 0 <= i < |calls| ==> !flags[i]
      invariant calls != [] ==> Rested(calls[|calls| - 1], timeout, now, overslept)
      decreases |flags| - |calls|
    {
      var startTime, late := Wait(now, 0);
      var endTime, duration := Wait(startTime, 0);
      calls, lates := calls + [Call(startTime, endTime)], lates + [overslept + late];
      var elapsed := (endTime - startTime) / NS_PER_MS;
      var remainingTime := timeout - elapsed;
      now, overslept := endTime, 0;
      if remainingTime > 0 {
        now, overslept := Wait(endTime, remainingTime * NS_PER_MS);
      }
      ElapsedRoundsDown(endTime - startTime);
    }
    CallbacksAre(flags, |calls|);
  }

  /** The job has slept off what was left of the timeout after a callback. */
  predicate Rested(c: Call, timeout: int, now: int, overslept: nat) {
    && c.start + timeout * NS_PER_MS <= now && c.start <= c.end <= now
    && now <= (if c.end > c.start + (timeout + 1) * NS_PER_MS then c.end else c.start + (timeout + 1) * NS_PER_MS)
              + overslept
  }

  lemma ElapsedRoundsDown(ns: nat)
    ensures ns / NS_PER_MS * NS_PER_MS <= ns < (ns / NS_PER_MS + 1) * NS_PER_MS
  {
  }

  lemma {:induction false} StartsApart(calls: seq<Call>, timeout: int, i: nat, j: nat)
    requires Paced(calls, timeout) && i <= j < |calls|
    ensures calls[j].start - calls[i].start >= (j - i) * (timeout * NS_PER_MS)
  {
    if i < j {
      StartsApart(calls, timeout, i, j - 1);
      assert (j - i) * (timeout * NS_PER_MS) == (j - 1 - i) * (timeout * NS_PER_MS) + timeout * NS_PER_MS;
    }
  }

  /** Within any `window` milliseconds at most window / timeout + 1 callbacks start. */
  lemma StartsInWindow(calls: seq<Call>, timeout: nat, window: nat, i: nat, j: nat)
    requires Paced(calls, timeout) && timeout > 0 && i <= j < |calls|
    requires calls[j].start - calls[i].start <= window * NS_PER_MS
    ensures j - i + 1 <= window / timeout + 1
  {
    StartsApart(calls, timeout, i, j);
    var n := j - i;
    assert n * (timeout * NS_PER_MS) == n * timeout * NS_PER_MS;
    assert n * timeout <= window;
    QuotientBound(n, timeout, window);
  }

  lemma QuotientBound(n: nat, d: nat, limit: nat)
    requires d > 0 && n * d <= limit
    ensures n <= limit / d
  {
    var q := limit / d;
    assert limit < (q + 1) * d;
    assert n >= q + 1 ==> n * d >= (q + 1) * d;
  }

  /** Division of ints truncates toward zero. */
  function TruncatedQuotient(a: int, b: int): int
    requires b != 0
  {
    var q := (if a < 0 then -a else a) / (if b < 0 then -b else b);
    if (a < 0) == (b < 0) then q else -q
  }

  /** The period of the capture timer, in milliseconds, for a settled frame rate. */
  function Period(frameRate: int32): int
    requires frameRate != 0
  {
    TruncatedQuotient(1000, frameRate)
  }

  /** Whatever rate the client offers, the period for the settled one is at least 16 ms, and at most a second, exactly
      when the offer was at least one frame per second; otherwise the callbacks are not held apart at all. */
  lemma SettledPeriod(p: Params)
    requires P.Negotiate(p).frameRate != 0
    ensures Period(P.Negotiate(p).frameRate) >= 16 <==> p.frameRate >= 1
    ensures p.frameRate >= 1 ==> Period(P.Negotiate(p).frameRate) <= 1000
    ensures p.frameRate < 1 ==> Period(P.Negotiate(p).frameRate) <= 0
  {
    var rate := P.Negotiate(p).frameRate;
    if rate > 0 {
      Quotients(rate);
    } else {
      NegativeQuotient(rate);
    }
  }

  lemma NegativeQuotient(rate: int)
    requires rate < 0
    ensures TruncatedQuotient(1000, rate) <= 0
  {
    assert 1000 / (-rate) >= 0;
  }

  lemma Quotients(rate: int)
    requires 1 <= rate <= 60
    ensures 16 <= TruncatedQuotient(1000, rate) <= 1000
  {
    assert rate * 16 <= 1000;
    QuotientBound(16, rate, 1000);
    assert 1000 / rate * rate <= 1000;
  }

  /** The period is a second divided by the rate, in whole milliseconds. */
  lemma PeriodKeepsRate(rate: int32)
    requires rate != 0
    ensures rate > 0 ==> Period(rate) * rate <= 1000 < (Period(rate) + 1) * rate
    ensures rate < 0 ==> Period(rate) * rate <= 1000 < (Period(rate) - 1) * rate
  {
    if rate < 0 {
      var size: int := rate;
      size := -size;
      var q := 1000 / size;
      assert q * size <= 1000 < (q + 1) * size;
      assert (-q) * rate == q * size && (-q - 1) * rate == (q + 1) * size;
    }
  }

  /** So a client that offers a rate of at least 1, of which 60 at most is settled, starts no more frames in any window
      of a round than that rate allows, and no more than one for 16 ms in any case. */
  lemma FramesInWindow(p: Params, calls: seq<Call>, window: nat, i: nat, j: nat)
    requires p.frameRate >= 1 && Paced(calls, Period(P.Negotiate(p).frameRate)) && i <= j < |calls|
    requires calls[j].start - calls[i].start <= window * NS_PER_MS
    ensures j - i + 1 <= window / (1000 / if p.frameRate < 60 then p.frameRate else 60) + 1
    ensures j - i + 1 <= window / 16 + 1
  {
    SettledPeriod(p);
    var period: nat := Period(P.Negotiate(p).frameRate);
    StartsInWindow(calls, period, window, i, j);
    ShorterPeriod(window, period);
  }

  lemma ShorterPeriod(window: nat, period: nat)
    requires period >= 16
    ensures window / period <= window / 16
  {
    var q := window / period;
    assert q * 16 <= q * period <= window;
  }
}
