// The limiter on log lines from the real-time thread (src/pwf_rate_limit.c).
module RateLimit {
  import opened Base

  const INTERVAL: nat := 1_000_000_000

  // *last_log_ns and *suppressed
  datatype Limiter = Limiter(lastLog: nat, suppressed: nat)

  // uint64_t subtraction
  function Elapsed(now: nat, since: nat): nat
    requires now < WORD && since < WORD
  {
    if now >= since then now - since else now + WORD - since
  }

  function Limited(l: Limiter, now: nat): (r: (Limiter, bool))
    requires now < WORD && l.lastLog < WORD
    ensures r.0.lastLog < WORD
  {
    if l.lastLog != 0 && Elapsed(now, l.lastLog) < INTERVAL then
      (l.(suppressed := (l.suppressed + 1) % WORD), false)
    else (l.(lastLog := now), true)
  }

  // What callers do with the answer: when it allows a log line, the line says
  // how many were suppressed, and the count starts again.
  function Noted(l: Limiter, now: nat): (r: (Limiter, Option<nat>))
    requires now < WORD && l.lastLog < WORD
    ensures r.0.lastLog < WORD
  {
    var (after, log) := Limited(l, now);
    if log then (after.(suppressed := 0), Some(after.suppressed)) else (after, None)
  }

  lemma NotedTimes(l: Limiter, now: nat)
    requires l.lastLog <= now < WORD
    ensures var (after, line) := Noted(l, now);
            && (line.Some? <==> l.lastLog == 0 || now - l.lastLog >= INTERVAL)
            && after.lastLog == if line.Some? then now else l.lastLog
  {
  }

  lemma NotedCounts(l: Limiter, now: nat)
    requires now < WORD && l.lastLog < WORD
    ensures var (after, line) := Noted(l, now);
            if line.Some? then line.value == l.suppressed && after.suppressed == 0
            else after.suppressed <= l.suppressed + 1 && (l.suppressed + 1 < WORD ==> after.suppressed == l.suppressed + 1)
  {
  }

  class LogLimiter {
    var lastLog: nat
    var suppressed: nat

    function State(): Limiter
      reads this
    {
      Limiter(lastLog, suppressed)
    }

    constructor ()
      ensures State() == Limiter(0, 0)
    {
      lastLog, suppressed := 0, 0;
    }

    // pwf_rate_limited
    method Check(now: nat) returns (log: bool)
      requires now < WORD && lastLog < WORD
      modifies this
      ensures (State(), log) == Limited(old(State()), now)
    {
      if lastLog != 0 && Elapsed(now, lastLog) < INTERVAL {
        suppressed := (suppressed + 1) % WORD;
        return false;
      }
      lastLog := now;
      return true;
    }

    method Note(now: nat) returns (line: Option<nat>)
      requires now < WORD && lastLog < WORD
      modifies this
      ensures (State(), line) == Noted(old(State()), now)
    {
      var log := Check(now);
      if !log {
        return None;
      }
      line := Some(suppressed);
      suppressed := 0;
    }
  }

  // ---------------------------------------------------------------------- runs

  // A log line: which occurrence, when, and the suppressed count it states.
  datatype Line = Line(index: nat, time: nat, count: nat)

  predicate Clock(times: seq<nat>) {
    && (forall i :: 0 <= i < |times| ==> 0 < times[i] < WORD)
    && forall i, j :: 0 <= i <= j < |times| ==> times[i] <= times[j]
  }

  function Run(times: seq<nat>): (r: (Limiter, seq<Line>))
    requires forall i :: 0 <= i < |times| ==> times[i] < WORD
    ensures r.0.lastLog < WORD
  {
    if times == [] then (Limiter(0, 0), [])
    else
      var n := |times| - 1;
      var (l, lines) := Run(times[..n]);
      var (after, line) := Noted(l, times[n]);
      (after, if line.Some? then lines + [Line(n, times[n], line.value)] else lines)
  }

  function Counted(lines: seq<Line>): nat {
    if lines == [] then 0 else Counted(lines[..|lines| - 1]) + lines[|lines| - 1].count
  }

  ghost predicate Spaced(lines: seq<Line>) {
    forall i :: 0 < i < |lines| ==> lines[i].time >= lines[i - 1].time + INTERVAL
  }

  // What a run of the limiter keeps: lines are an interval apart, the first
  // occurrence has the first of them, and an occurrence without one came
  // within an interval of the last.
  ghost predicate Kept(times: seq<nat>, l: Limiter, lines: seq<Line>) {
    && Spaced(lines)
    && (times == [] <==> lines == [])
    && (forall k :: 0 <= k < |lines| ==> lines[k].index < |times| && lines[k].time == times[lines[k].index])
    && (lines != [] ==>
          && lines[0].index == 0 && l.lastLog == lines[|lines| - 1].time
          && times[|times| - 1] - l.lastLog < INTERVAL)
    && (lines == [] ==> l.lastLog == 0)
  }

  lemma {:induction false} RunKeeps(times: seq<nat>)
    requires Clock(times)
    ensures Kept(times, Run(times).0, Run(times).1)
  {
    if times != [] {
      var n := |times| - 1;
      var (l, lines) := Run(times[..n]);
      RunKeeps(times[..n]);
      OneMore(times, l, lines);
    }
  }

  lemma OneMore(times: seq<nat>, l: Limiter, lines: seq<Line>)
    requires Clock(times) && times != [] && l.lastLog < WORD && Kept(times[..|times| - 1], l, lines)
    ensures var n := |times| - 1;
            var (after, line) := Noted(l, times[n]);
            && Kept(times, after, if line.Some? then lines + [Line(n, times[n], line.value)] else lines)
            && (line.Some? <==> lines == [] || times[n] - l.lastLog >= INTERVAL)
  {
    var n := |times| - 1;
    LastLineIsPast(times, l, lines);
    NotedTimes(l, times[n]);
    LinesBefore(times, lines);
    hide Noted, Clock, Spaced;
    var (after, line) := Noted(l, times[n]);
    if line.Some? {
      SpacedMore(lines, Line(n, times[n], line.value));
    }
  }

  lemma SpacedMore(lines: seq<Line>, line: Line)
    requires Spaced(lines) && (lines != [] ==> line.time >= lines[|lines| - 1].time + INTERVAL)
    ensures Spaced(lines + [line])
  {
  }

  lemma LinesBefore(times: seq<nat>, lines: seq<Line>)
    requires times != []
    requires forall k :: 0 <= k < |lines| ==>
               lines[k].index < |times| - 1 && lines[k].time == times[..|times| - 1][lines[k].index]
    ensures forall k :: 0 <= k < |lines| ==> lines[k].index < |times| && lines[k].time == times[lines[k].index]
  {
  }

  lemma LastLineIsPast(times: seq<nat>, l: Limiter, lines: seq<Line>)
    requires Clock(times) && times != [] && Kept(times[..|times| - 1], l, lines)
    ensures 0 < times[|times| - 1] < WORD && l.lastLog <= times[|times| - 1] && (lines != [] ==> l.lastLog > 0)
  {
    hide Spaced;
    if lines != [] {
      assert l.lastLog == times[lines[|lines| - 1].index];
    }
  }

  lemma {:induction false} SpacedApart(lines: seq<Line>, i: nat, j: nat)
    requires Spaced(lines) && i <= j < |lines|
    ensures lines[j].time - lines[i].time >= (j - i) * INTERVAL
    decreases j
  {
    if i < j {
      SpacedApart(lines, i, j - 1);
      assert (j - i) * INTERVAL == (j - 1 - i) * INTERVAL + INTERVAL;
    } else {
      assert (j - i) * INTERVAL == 0;
    }
  }

  // Log lines are at least a second apart, and k of them take k - 1 seconds:
  // in a span of T nanoseconds there are at most 1 + T / 10^9.
  lemma LinesAreSpaced(times: seq<nat>, i: nat, j: nat, span: nat)
    requires Clock(times) && i <= j < |Run(times).1|
    requires Run(times).1[j].time - Run(times).1[i].time <= span
    ensures j - i + 1 <= 1 + span / INTERVAL
    ensures i < j ==> Run(times).1[j].time - Run(times).1[j - 1].time >= INTERVAL
  {
    RunKeeps(times);
    SpacedApart(Run(times).1, i, j);
    assert span >= (j - i) * INTERVAL;
  }

  // An occurrence is logged exactly when nothing was logged in the second
  // before it; the first always is.
  lemma LoggedExactly(times: seq<nat>)
    requires Clock(times) && times != []
    ensures var n := |times| - 1;
            var before, lines := Run(times[..n]).1, Run(times).1;
            lines == before <==> exists k :: 0 <= k < |before| && times[n] - before[k].time < INTERVAL
  {
    var n := |times| - 1;
    var (l, before) := Run(times[..n]);
    RunKeeps(times[..n]);
    LastLineIsPast(times, l, before);
    hide Noted, Clock;
    NotedTimes(l, times[n]);
    LastIsLatest(l, before, times[n]);
  }

  lemma LastIsLatest(l: Limiter, lines: seq<Line>, now: nat)
    requires Spaced(lines) && (lines != [] ==> l.lastLog == lines[|lines| - 1].time)
    ensures (exists k :: 0 <= k < |lines| && now - lines[k].time < INTERVAL) <==> lines != [] && now - l.lastLog < INTERVAL
  {
    forall k | 0 <= k < |lines| ensures lines[k].time <= l.lastLog {
      SpacedApart(lines, k, |lines| - 1);
      assert (|lines| - 1 - k) * INTERVAL >= 0;
    }
    assert lines != [] ==> lines[|lines| - 1].time == l.lastLog;
  }

  // Every occurrence is a line, counted by a line, or waiting to be counted,
  // for as long as the counter's range lasts.
  lemma {:induction false} OccurrencesAreConserved(times: seq<nat>)
    requires forall i :: 0 <= i < |times| ==> times[i] < WORD
    ensures var (l, lines) := Run(times);
            && |lines| + Counted(lines) + l.suppressed <= |times|
            && (|times| < WORD ==> |lines| + Counted(lines) + l.suppressed == |times|)
  {
    if times != [] {
      var n := |times| - 1;
      OccurrencesAreConserved(times[..n]);
      var (l, lines) := Run(times[..n]);
      var (after, line) := Noted(l, times[n]);
      hide Noted;
      NotedCounts(l, times[n]);
      if line.Some? {
        assert (lines + [Line(n, times[n], line.value)])[..|lines|] == lines;
      }
    }
  }

  // The limiter takes a timestamp of 0 for "nothing logged yet".
  lemma ZeroIsForgotten()
    ensures |Run([0, 0]).1| == 2
  {
    var one: seq<nat>, two: seq<nat> := [0], [0, 0];
    assert one[..0] == [] && two[..1] == one;
    assert Noted(Limiter(0, 0), 0) == (Limiter(0, 0), Some(0));
    assert Run(one).0 == Limiter(0, 0) && |Run(one).1| == 1;
  }
}
