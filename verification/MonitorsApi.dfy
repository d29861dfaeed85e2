/** The monitor service: what creating, editing and deleting a monitor writes, proved to be steps of the protocol, and what
    overlapping edits do to each other. */
module MonitorsApi {
  import opened Wrappers
  import opened Times
  import opened Schedule
  import opened Protocol
  import opened Database
  import Regions
  import RunIds
  import W = Workers

  datatype Reply = Accepted | InvalidArgument | NotFound | Internal

  /** The part of an edit that modelled columns take; no regions means that the request leaves them alone. */
  datatype Edit = Edit(intervalMs: Option<int>, regions: seq<string>, enabled: Option<bool>)

  /** UpdateMonitorByUser on the row `now`: it writes every column of the request, those the request leaves alone with what
      was read before. The scheduler's columns are not among them. */
  function Edited(read: Monitor, now: Monitor, edit: Edit): Monitor {
    now.(intervalMs := if edit.intervalMs.Some? then edit.intervalMs.value else read.intervalMs,
         seed := read.seed,
         regions := if edit.regions == [] then read.regions else Regions.Normalized(edit.regions),
         enabled := if edit.enabled.Some? then edit.enabled.value else read.enabled)
  }

  // ---------------------------------------------------------------------------------------------------------------
  // What every stored row looks like

  /** The regions of a row are some, normalized, none twice; its seed is the one every monitor gets. */
  predicate Tidy(m: Monitor) {
    m.regions != [] && Regions.Normalized(m.regions) == m.regions && m.seed == 42
  }

  ghost predicate AllTidy(monitors: Monitors) {
    forall id :: id in monitors ==> Tidy(monitors[id])
  }

  lemma StoredTidy(regions: seq<string>)
    requires regions != []
    ensures Regions.Normalized(regions) != [] && Regions.Normalized(Regions.Normalized(regions)) == Regions.Normalized(regions)
  {
    Regions.NormalizedIsSet(regions);
    Regions.NormalizedTwice(regions);
  }

  /** The same monitors with the same regions and seeds. */
  ghost predicate SameSettings(before: Monitors, after: Monitors) {
    before.Keys == after.Keys
    && forall id :: id in before ==> after[id].regions == before[id].regions && after[id].seed == before[id].seed
  }

  lemma {:induction false} SchedulingKeepsSettings(env: RunIds.Env, s: Schedules, due: seq<string>, now: Time)
    requires forall id :: id in due ==> id in s.monitors
    ensures var u := ScheduleAll(env, s, due, now);
            u.Some? ==> SameSettings(s.monitors, u.value.monitors)
  {
    if due != [] {
      SchedulingKeepsSettings(env, s, due[..|due| - 1], now);
    }
  }

  lemma StepKeepsTidy(c: Config, s: State, step: Step)
    requires Enabled(c, s, step) && AllTidy(s.monitors)
    ensures AllTidy(Apply(c, s, step).monitors)
  {
    hide Regions.Normalized, ScheduleAll, FinishedBy, Owns;
    match step
    case CreateMonitor(id, ms, regions, enabled) =>
      StoredTidy(if regions == [] then [Regions.GLOBAL] else regions);
    case UpdateMonitor(id, ms, regions, enabled) =>
      if regions != [] {
        StoredTidy(regions);
      }
    case ScheduleIteration(locked, due) =>
      SchedulingKeepsSettings(c.env, Schedules(s.jobs, s.monitors), due, s.clock);
    case _ =>
  }

  lemma {:induction false} RunsStayTidy(c: Config, ss: seq<State>, steps: seq<Step>, i: nat)
    requires IsRun(c, ss, steps) && Init(ss[0]) && i < |ss|
    ensures AllTidy(ss[i].monitors)
  {
    if i > 0 {
      hide Enabled, Apply, AllTidy;
      RunsStayTidy(c, ss, steps, i - 1);
      assert Enabled(c, ss[i - 1], steps[i - 1]);
      StepKeepsTidy(c, ss[i - 1], steps[i - 1]);
    }
  }

  // ---------------------------------------------------------------------------------------------------------------
  // The service

  class MonitorsService {
    const store: Store

    constructor (store: Store)
      ensures this.store == store
    {
      this.store := store;
    }

    ghost function Tables(clock: Time): State
      reads store
    {
      State(clock, store.jobs, store.monitors, store.results, map[])
    }

    method CreateMonitor(ghost c: Config, id: string, url: string, intervalMs: int, regions: seq<string>,
                         enabled: Option<bool>, clock: Time, write: W.Write)
      returns (reply: Reply)
      modifies store`monitors
      ensures reply == InvalidArgument <==> id == "" || url == ""
      ensures reply == Accepted <==> id != "" && url != "" && id !in old(store.monitors) && write.Done?
      ensures var on := enabled != Some(false);
              if id == "" || url == "" || id in old(store.monitors) || write.Refused? then store.monitors == old(store.monitors)
              else
                && Tables(clock) == Apply(c, old(Tables(clock)), Step.CreateMonitor(id, intervalMs, regions, on))
                && store.monitors == old(store.monitors)[id :=
                     Monitor(if intervalMs == 0 then 60000 else intervalMs, 42,
                             if regions == [] then ["global"] else Regions.Normalized(regions), on, false, None, None)]
    {
      if id == "" || url == "" {
        return InvalidArgument;
      }
      var ms := if intervalMs == 0 then 60000 else intervalMs;
      var names := regions;
      if |names| == 0 {
        names := ["global"];
        Regions.GlobalAlone();
      }
      names := Regions.NormalizeList(names);
      var on := true;
      if enabled.Some? {
        on := enabled.value;
      }
      var ok := store.CreateMonitor(id, Monitor(ms, 42, names, on, false, None, None), write);
      return if ok then Accepted else Internal;
    }

    /** `meanwhile` is what the other actors make of the monitors between the lookup and the write; `queried` is whether the
        lookup reaches the table. */
    method UpdateMonitor(ghost c: Config, id: string, edit: Edit, queried: bool, meanwhile: Monitors, clock: Time,
                         write: W.Write)
      returns (reply: Reply)
      modifies store`monitors
      ensures reply == InvalidArgument <==> id == ""
      ensures reply == NotFound <==> id != "" && queried && (id !in old(store.monitors) || old(store.monitors)[id].deleted)
      ensures reply == Accepted ==> write.Done? && queried && id in meanwhile
      ensures id == "" || !queried || id !in old(store.monitors) || old(store.monitors)[id].deleted ==>
                store.monitors == old(store.monitors)
      ensures id != "" && queried && id in old(store.monitors) && !old(store.monitors)[id].deleted ==>
                var read := old(store.monitors)[id];
                && reply == (if write.Done? && id in meanwhile then Accepted else Internal)
                && store.monitors ==
                   if write.Refused? || id !in meanwhile then meanwhile else meanwhile[id := Edited(read, meanwhile[id], edit)]
    {
      if id == "" {
        return InvalidArgument;
      }
      if !queried {
        return Internal;
      }
      var existing := store.GetMonitor(id);
      if existing.None? {
        return NotFound;
      }
      var row := existing.value;
      if edit.intervalMs.Some? {
        row := row.(intervalMs := edit.intervalMs.value);
      }
      if |edit.regions| > 0 {
        var names := Regions.NormalizeList(edit.regions);
        row := row.(regions := names);
      }
      if edit.enabled.Some? {
        row := row.(enabled := edit.enabled.value);
      }
      store.monitors := meanwhile;
      var ok := store.UpdateMonitor(id, row, write);
      return if ok then Accepted else Internal;
    }

    /** A monitor that is not there, or not any more, is deleted without complaint. */
    method DeleteMonitor(ghost c: Config, id: string, clock: Time, write: W.Write) returns (reply: Reply)
      modifies store`monitors
      ensures reply == if id == "" then InvalidArgument else if write.Done? then Accepted else Internal
      ensures Tables(clock) ==
              if id != "" && !write.Refused? && id in old(store.monitors) && !old(store.monitors)[id].deleted
              then Apply(c, old(Tables(clock)), Step.DeleteMonitor(id)) else old(Tables(clock))
      ensures id in old(store.monitors) && id != "" && !write.Refused? ==>
                store.monitors == old(store.monitors)[id := old(store.monitors)[id].(deleted := true)]
    {
      if id == "" {
        return InvalidArgument;
      }
      var ok := store.DeleteMonitor(id, write);
      return if ok then Accepted else Internal;
    }
  }

  // ---------------------------------------------------------------------------------------------------------------
  // Edits as steps, and overlapping edits

  /** With nothing in between, the write of an edit is the protocol's step for it. */
  lemma EditIsStep(c: Config, s: State, id: string, edit: Edit)
    requires id in s.monitors
    ensures var step := Step.UpdateMonitor(id, edit.intervalMs, edit.regions, edit.enabled);
            && Enabled(c, s, step)
            && Apply(c, s, step) == s.(monitors := s.monitors[id := Edited(s.monitors[id], s.monitors[id], edit)])
  {
  }

  /** Whatever happened since an edit read its row, its write is still a step of the protocol: the one that sets every column
      to what this edit writes. So all that is proved about runs holds with overlapping edits, too. */
  lemma LateEditIsStep(c: Config, ss: seq<State>, steps: seq<Step>, i: nat, j: nat, id: string, edit: Edit)
    requires IsRun(c, ss, steps) && Init(ss[0]) && i <= j < |ss|
    requires id in ss[i].monitors && id in ss[j].monitors
    ensures var row := Edited(ss[i].monitors[id], ss[j].monitors[id], edit);
            var step := Step.UpdateMonitor(id, Some(row.intervalMs), row.regions, Some(row.enabled));
            && Enabled(c, ss[j], step)
            && Apply(c, ss[j], step) == ss[j].(monitors := ss[j].monitors[id := row])
  {
    RunsStayTidy(c, ss, steps, i);
    RunsStayTidy(c, ss, steps, j);
    assert Tidy(ss[i].monitors[id]) && Tidy(ss[j].monitors[id]);
    hide IsRun, Init;
    if edit.regions != [] {
      StoredTidy(edit.regions);
    }
  }

  /** Of two edits that read the same row, the later writer leaves the row as if it had read it after the other wrote exactly
      when the other changed no column that it leaves alone; otherwise that change is lost. The scheduler's columns, which an
      iteration may have written in between, are never lost. */
  lemma OverlappingEditsIff(m: Monitor, a: Edit, b: Edit, last: Option<Time>, nextDue: Option<Time>)
    ensures var now := Edited(m, m, a).(last := last, nextDue := nextDue);
            && (Edited(m, now, b) == Edited(now, now, b) <==>
                && (b.intervalMs.Some? || a.intervalMs.None? || a.intervalMs.value == m.intervalMs)
                && (b.regions != [] || a.regions == [] || Regions.Normalized(a.regions) == m.regions)
                && (b.enabled.Some? || a.enabled.None? || a.enabled.value == m.enabled))
            && Edited(m, now, b).last == last && Edited(m, now, b).nextDue == nextDue
  {
  }
}
