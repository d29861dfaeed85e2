/** Over whole runs: how close two jobs of one monitor and region can be, and how often a monitor is scheduled. */
module Rates {
  import opened Wrappers
  import opened Times
  import opened Jobs
  import opened Cadence
  import opened RunIds
  import opened Schedule
  import opened Spacing
  import opened Protocol
  import opened Leases
  import opened Pace

  // ---------------------------------------------------------------------------------------------------------------
  // Separation

  lemma OtherStepsSeparate(c: Config, s: State, step: Step, gap: Gap)
    requires Enabled(c, s, step) && !step.ScheduleIteration? && Separated(s.jobs, gap)
    ensures Separated(Apply(c, s, step).jobs, gap)
  {
    var jobs' := Apply(c, s, step).jobs;
    forall r | r in jobs'
      ensures r in s.jobs && jobs'[r].at == s.jobs[r].at && jobs'[r].monitor == s.jobs[r].monitor
              && jobs'[r].region == s.jobs[r].region && (jobs'[r].Active() ==> s.jobs[r].Active())
    {
      RowKeepsPlace(c, s, step, r);
    }
  }

  lemma StepSeparates(c: Config, s: State, step: Step, gap: Gap)
    requires Enabled(c, s, step) && Separated(s.jobs, gap)
    requires step.ScheduleIteration? ==> forall id :: id in step.due ==> gap(id) <= DedupWindow(Interval(s.monitors[id].intervalMs))
    ensures Separated(Apply(c, s, step).jobs, gap)
  {
    if step.ScheduleIteration? {
      IterationKeepsSeparation(c.env, Tables(s), step.due, s.clock, gap);
    } else {
      OtherStepsSeparate(c, s, step, gap);
    }
  }

  /** Whatever the intervals are and however they are edited, two active jobs of one monitor and region are more than
      half a second apart, so no two of them ever have the same key in the partial unique index. */
  lemma {:induction false} AlwaysSeparated(c: Config, ss: seq<State>, steps: seq<Step>, k: nat)
    requires IsRun(c, ss, steps) && Init(ss[0]) && k < |ss|
    ensures Separated(ss[k].jobs, (id: string) => 500 * MILLISECOND)
  {
    hide Apply;
    var gap := (id: string) => 500 * MILLISECOND;
    if k > 0 {
      AlwaysSeparated(c, ss, steps, k - 1);
      var s, step := ss[k - 1], steps[k - 1];
      assert Enabled(c, s, step);
      if step.ScheduleIteration? {
        forall id | id in step.due ensures gap(id) <= DedupWindow(Interval(s.monitors[id].intervalMs)) {
          DedupBounds(s.monitors[id].intervalMs);
        }
      }
      StepSeparates(c, s, step, gap);
    }
  }

  /** The duplicate window of one monitor, and the least window for the rest. */
  function WindowOf(id: string, ms: int): Gap {
    x => if x == id then DedupWindow(Interval(ms)) else 500 * MILLISECOND
  }

  /** Jobs of a monitor that is only scheduled at one interval are more than its full duplicate window apart, whatever the
      intervals of the others are. */
  lemma {:induction false} PlannedSeparated(c: Config, ss: seq<State>, steps: seq<Step>, id: string, ms: int, k: nat)
    requires IsRun(c, ss, steps) && Init(ss[0]) && k < |ss| && KeepsInterval(ss, steps, id, ms, 0, k)
    ensures Separated(ss[k].jobs, WindowOf(id, ms))
  {
    if k > 0 {
      PlannedSeparated(c, ss, steps, id, ms, k - 1);
      assert Enabled(c, ss[k - 1], steps[k - 1]);
      PlannedStepSeparates(c, ss[k - 1], steps[k - 1], id, ms);
    }
  }

  lemma PlannedStepSeparates(c: Config, s: State, step: Step, id: string, ms: int)
    requires Enabled(c, s, step) && Separated(s.jobs, WindowOf(id, ms))
    requires step.ScheduleIteration? && id in step.due ==> id in s.monitors && s.monitors[id].intervalMs == ms
    ensures Separated(Apply(c, s, step).jobs, WindowOf(id, ms))
  {
    hide Apply, DedupWindow, Interval, Separated;
    if step.ScheduleIteration? {
      forall x | x in step.due ensures WindowOf(id, ms)(x) <= DedupWindow(Interval(s.monitors[x].intervalMs)) {
        DedupBounds(s.monitors[x].intervalMs);
      }
    }
    StepSeparates(c, s, step, WindowOf(id, ms));
  }

  // ---------------------------------------------------------------------------------------------------------------
  // The starts of one monitor

  /** The stored start times of a monitor, in the order of the first `n` steps. */
  ghost function StartTimes(c: Config, ss: seq<State>, steps: seq<Step>, id: string, n: nat): seq<Time>
    requires n <= |steps| && n <= |ss|
  {
    if n == 0 then [] else
      var times := StartTimes(c, ss, steps, id, n - 1);
      if Starts(c, ss[n - 1], steps[n - 1], id)
      then times + [Stored(StartOf(ss[n - 1].monitors[id], ss[n - 1].clock))]
      else times
  }

  ghost predicate LastIs(monitors: Monitors, id: string, times: seq<Time>) {
    times != [] ==> id in monitors && monitors[id].last == Some(times[|times| - 1])
  }

  lemma NextIsSpaced(m: Monitor, gap: Time, now: Time)
    requires m.last.Some? && m.nextDue.Some? && m.last.value % MICROSECOND == 0
    requires m.nextDue.value >= m.last.value + Stored(gap)
    ensures m.last.value + Stored(gap) <= Stored(StartOf(m, now))
  {
    StoredMonotone(m.last.value + Stored(gap), StartOf(m, now));
    StoredSum(m.last.value, Stored(gap));
    StoredTwice(gap);
  }

  lemma StartsSoon(m: Monitor, now: Time)
    requires m.Due(now)
    ensures Stored(now) <= Stored(StartOf(m, now)) <= Stored(now + LOOK_AHEAD)
  {
    StoredMonotone(now, StartOf(m, now));
    StoredMonotone(StartOf(m, now), now + LOOK_AHEAD);
  }

  lemma StepKeepsLast(c: Config, s: State, step: Step, id: string, times: seq<Time>)
    requires Enabled(c, s, step) && LastIs(s.monitors, id, times) && (id in s.monitors ==> WellFormed(s.monitors[id]))
    ensures LastIs(Apply(c, s, step).monitors, id,
                   if Starts(c, s, step, id) then times + [Stored(StartOf(s.monitors[id], s.clock))] else times)
  {
    if Starts(c, s, step, id) {
      StartedMonitor(c, s, step, id);
    } else {
      RestingMonitor(c, s, step, id);
    }
  }

  /** The monitor's row remembers the last of its starts. */
  lemma {:induction false} LastIsRemembered(c: Config, ss: seq<State>, steps: seq<Step>, id: string, n: nat)
    requires IsRun(c, ss, steps) && Init(ss[0]) && n <= |steps|
    ensures LastIs(ss[n].monitors, id, StartTimes(c, ss, steps, id, n))
    ensures StartTimes(c, ss, steps, id, n) == [] <==> LastInterval(c, ss, steps, id, n).None?
  {
    if n > 0 {
      LastIsRemembered(c, ss, steps, id, n - 1);
      RunsAreCadenced(c, ss, steps, id, n - 1);
      hide Apply, Enabled, LastIs, Starts;
      assert Enabled(c, ss[n - 1], steps[n - 1]);
      StepKeepsLast(c, ss[n - 1], steps[n - 1], id, StartTimes(c, ss, steps, id, n - 1));
    }
  }

  /** Over every run and with any edits: a start lies within the look-ahead, and it comes at least a stored jittered interval
      after the one before, the interval being the one that one was scheduled with. */
  lemma StartMoves(c: Config, ss: seq<State>, steps: seq<Step>, id: string, k: nat)
    requires IsRun(c, ss, steps) && Init(ss[0]) && k < |steps| && Starts(c, ss[k], steps[k], id)
    ensures var t, times, before := Stored(StartOf(ss[k].monitors[id], ss[k].clock)), StartTimes(c, ss, steps, id, k),
                                    LastInterval(c, ss, steps, id, k);
            && StartTimes(c, ss, steps, id, k + 1) == times + [t]
            && Stored(ss[k].clock) <= t <= Stored(ss[k].clock + LOOK_AHEAD)
            && (times != [] <==> before.Some?)
            && (before.Some? ==> times[|times| - 1] + Stored(GapOf(c.env, id, before.value)) <= t)
  {
    hide Apply, Enabled, GapOf;
    LastIsRemembered(c, ss, steps, id, k);
    RunsAreCadenced(c, ss, steps, id, k);
    assert Enabled(c, ss[k], steps[k]);
    StartedMonitor(c, ss[k], steps[k], id);
    var m := ss[k].monitors[id];
    StartsSoon(m, ss[k].clock);
    var before := LastInterval(c, ss, steps, id, k);
    if before.Some? {
      NextIsSpaced(m, GapOf(c.env, id, before.value), ss[k].clock);
    }
  }

  /** Rate bound: successive starts of a monitor that is only scheduled at one interval are at least its stored jittered
      interval apart. */
  lemma {:induction false} StartsSpaced(c: Config, ss: seq<State>, steps: seq<Step>, id: string, ms: int, n: nat)
    requires IsRun(c, ss, steps) && Init(ss[0]) && n <= |steps| && KeepsInterval(ss, steps, id, ms, 0, n)
    ensures Spaced(StartTimes(c, ss, steps, id, n), Stored(GapOf(c.env, id, ms)))
  {
    hide IsRun, Init, Starts, GapOf, Stored, StartOf;
    if n > 0 {
      FewerSteps(c, ss, steps, id, ms, n);
      StartsSpaced(c, ss, steps, id, ms, n - 1);
      if Starts(c, ss[n - 1], steps[n - 1], id) {
        StartMoves(c, ss, steps, id, n - 1);
        KeptInterval(c, ss, steps, id, ms, n - 1);
      }
    }
  }

  lemma FewerSteps(c: Config, ss: seq<State>, steps: seq<Step>, id: string, ms: int, n: nat)
    requires IsRun(c, ss, steps) && 0 < n <= |steps| && KeepsInterval(ss, steps, id, ms, 0, n)
    ensures |ss| == |steps| + 1 && KeepsInterval(ss, steps, id, ms, 0, n - 1)
  {
  }

  lemma GapPositive(ms: int, hash: nat)
    requires 0 < ms
    ensures 0 < Stored(ApplyJitter(Interval(ms), hash))
  {
    if Interval(ms) > 10 * SECOND {
      JitterShift(Interval(ms), hash);
    }
    StoredMonotone(MILLISECOND, ApplyJitter(Interval(ms), hash));
  }

  /** So a window of length `length` holds at most length / gap + 1 of its starts. */
  lemma StartsInWindow(c: Config, ss: seq<State>, steps: seq<Step>, id: string, ms: int, n: nat,
                       times: seq<Time>, length: Time, i: nat, j: nat)
    requires IsRun(c, ss, steps) && Init(ss[0]) && n <= |steps| && KeepsInterval(ss, steps, id, ms, 0, n) && 0 < ms
    requires times == StartTimes(c, ss, steps, id, n) && i <= j < |times| && times[j] - times[i] <= length
    ensures var gap := Stored(GapOf(c.env, id, ms));
            0 < gap && j - i + 1 <= length / gap + 1
  {
    hide Apply, Enabled, StartTimes, Stored, GapOf;
    StartsSpaced(c, ss, steps, id, ms, n);
    GapOfPositive(c.env, id, ms);
    WindowHolds(times, Stored(GapOf(c.env, id, ms)), length, i, j);
  }

  lemma GapOfPositive(env: Env, id: string, ms: int)
    requires 0 < ms
    ensures 0 < Stored(GapOf(env, id, ms))
  {
    GapPositive(ms, env.hash(id, DEFAULT_SEED));
  }

  // ---------------------------------------------------------------------------------------------------------------
  // The exact progression

  /** Whenever the monitor is scheduled again, its due time still lies ahead. */
  ghost predicate NeverOverdue(c: Config, ss: seq<State>, steps: seq<Step>, id: string, n: nat) {
    forall k :: 0 <= k < n && k < |steps| && k < |ss| && Starts(c, ss[k], steps[k], id) && ss[k].monitors[id].nextDue.Some?
      ==> ss[k].clock < ss[k].monitors[id].nextDue.value
  }

  ghost predicate Progression(times: seq<Time>, gap: Time) {
    && (|times| > 1 ==> gap <= times[1] - times[0] <= gap + MICROSECOND)
    && forall i :: 1 <= i < |times| ==> times[i] == times[1] + (i - 1) * gap
  }

  /** The due time continues the progression. */
  ghost predicate Cursor(monitors: Monitors, id: string, gap: Time, times: seq<Time>) {
    && Progression(times, gap)
    && (times == [] ==> id in monitors ==> monitors[id].nextDue.None?)
    && (times != [] ==>
          && id in monitors && monitors[id].nextDue.Some? && monitors[id].nextDue.value % MICROSECOND == 0
          && gap <= monitors[id].nextDue.value - times[|times| - 1] <= gap + MICROSECOND
          && (|times| > 1 ==> monitors[id].nextDue.value == times[|times| - 1] + gap))
  }

  lemma ProgressionOneMore(times: seq<Time>, gap: Time, t: Time)
    requires Progression(times, gap)
    requires |times| == 1 ==> gap <= t - times[0] <= gap + MICROSECOND
    requires |times| > 1 ==> t == times[|times| - 1] + gap
    ensures Progression(times + [t], gap)
  {
    var more := times + [t];
    forall i | 1 <= i < |more| ensures more[i] == more[1] + (i - 1) * gap {
      if 1 < i == |times| {
        assert more[i - 1] == more[1] + (i - 2) * gap;
        assert (i - 1) * gap == (i - 2) * gap + gap;
      }
    }
  }

  lemma CursorAdvances(env: Env, monitors: Monitors, monitors': Monitors, id: string, times: seq<Time>, now: Time)
    requires id in monitors && id in monitors' && WellFormed(monitors[id])
    requires Cursor(monitors, id, Stored(GapOf(env, id, monitors[id].intervalMs)), times)
    requires monitors[id].nextDue.Some? ==> now < monitors[id].nextDue.value
    requires monitors'[id] == Advanced(env, id, monitors[id], now)
    ensures Cursor(monitors', id, Stored(GapOf(env, id, monitors[id].intervalMs)), times + [Stored(StartOf(monitors[id], now))])
  {
    var at, gap := StartOf(monitors[id], now), GapOf(env, id, monitors[id].intervalMs);
    StoredSum(at, gap);
    StoredTwice(at + gap);
    ProgressionOneMore(times, Stored(gap), Stored(at));
  }

  lemma CursorMoves(c: Config, s: State, step: Step, id: string, times: seq<Time>)
    requires Enabled(c, s, step) && Starts(c, s, step, id) && WellFormed(s.monitors[id])
    requires Cursor(s.monitors, id, Stored(GapOf(c.env, id, s.monitors[id].intervalMs)), times)
    requires s.monitors[id].nextDue.Some? ==> s.clock < s.monitors[id].nextDue.value
    ensures Cursor(Apply(c, s, step).monitors, id, Stored(GapOf(c.env, id, s.monitors[id].intervalMs)),
                   times + [Stored(StartOf(s.monitors[id], s.clock))])
  {
    StartedMonitor(c, s, step, id);
    hide Apply, Enabled;
    CursorAdvances(c.env, s.monitors, Apply(c, s, step).monitors, id, times, s.clock);
  }

  lemma CursorStays(c: Config, s: State, step: Step, id: string, gap: Time, times: seq<Time>)
    requires Enabled(c, s, step) && Cursor(s.monitors, id, gap, times) && !Starts(c, s, step, id)
    requires id in s.monitors ==> WellFormed(s.monitors[id])
    ensures Cursor(Apply(c, s, step).monitors, id, gap, times)
  {
    RestingMonitor(c, s, step, id);
    hide Apply, Enabled, Starts;
  }

  /** A monitor that is only scheduled at one interval and never found overdue follows one arithmetic progression from its
      second start on; the first step may be longer by the microsecond that storing cuts off. */
  lemma {:induction false} ExactProgression(c: Config, ss: seq<State>, steps: seq<Step>, id: string, ms: int, n: nat)
    requires IsRun(c, ss, steps) && Init(ss[0]) && n <= |steps|
    requires KeepsInterval(ss, steps, id, ms, 0, n) && NeverOverdue(c, ss, steps, id, n)
    ensures Cursor(ss[n].monitors, id, Stored(GapOf(c.env, id, ms)), StartTimes(c, ss, steps, id, n))
  {
    if n > 0 {
      ExactProgression(c, ss, steps, id, ms, n - 1);
      RunsAreCadenced(c, ss, steps, id, n - 1);
      var s, step, times := ss[n - 1], steps[n - 1], StartTimes(c, ss, steps, id, n - 1);
      assert Enabled(c, s, step) && ss[n] == Apply(c, s, step);
      hide Apply, Enabled, Cursor;
      if Starts(c, s, step, id) {
        assert s.monitors[id].intervalMs == ms;
        CursorMoves(c, s, step, id, times);
      } else {
        CursorStays(c, s, step, id, Stored(GapOf(c.env, id, ms)), times);
      }
    } else {
      assert ss[0].monitors == map[];
    }
  }
}
