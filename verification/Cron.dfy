/** The cron store and scheduler (core/cron.go): the list of stored jobs, the scheduler's
    table of entry ids, and the entry table of the cron library it drives. Saving to disk
    either succeeds or fails; parsing a cron expression is a given predicate. */
module Cron {
  import opened Text

  datatype Job = Job(
    id: string, project: string, sessionKey: string, cronExpr: string, prompt: string, exec: string,
    workDir: string, description: string, enabled: bool, silent: Option<bool>, mute: bool,
    sessionMode: string, mode: string, timeoutMins: Option<int>, lastError: string)

  /** An update's value, as decoded from JSON or given by a caller. */
  datatype Value = Str(s: string) | Bool(b: bool) | Float(f: real) | Int(i: int) | Other

  /** An entry of the cron library: its schedule and the job id its callback runs. */
  datatype LibEntry = LibEntry(expr: string, jobId: string)

  datatype State = State(jobs: seq<Job>, entries: map<string, nat>, lib: map<nat, LibEntry>, lastEntry: nat)

  // ----- validation

  function AsciiLower(s: string): string {
    if s == "" then ""
    else [if 'A' <= s[0] <= 'Z' then s[0] - 'A' + 'a' else s[0]] + AsciiLower(s[1..])
  }

  function NormalizeSessionMode(s: string): string {
    var low := AsciiLower(TrimSpace(s));
    if low in {"", "reuse"} then ""
    else if low in {"new_per_run", "new-per-run"} then "new_per_run"
    else TrimSpace(s)
  }

  predicate ValidSessionMode(s: string) {
    NormalizeSessionMode(s) in {"", "new_per_run"}
  }

  predicate ValidMode(s: string) {
    s in {"", "default", "bypassPermissions", "acceptEdits", "plan", "auto", "dontAsk"}
  }

  predicate ValidJob(j: Job) {
    && TrimSpace(j.sessionKey) != "" && ValidSessionMode(j.sessionMode) && ValidMode(j.mode)
    && (j.timeoutMins.Some? ==> j.timeoutMins.value >= 0)
  }

  // ----- fields by name

  const READ_ONLY := {"id", "created_at", "last_run", "last_error"}

  const DOCUMENTED := {
    "project", "session_key", "cron_expr", "prompt", "exec", "work_dir", "description",
    "enabled", "silent", "mute", "session_mode", "mode", "timeout_mins"}

  function Truncate(f: real): int {
    if f >= 0.0 then f.Floor else -((-f).Floor)
  }

  /** snake_case to the exported Go name: underscores go, what follows them is upper-cased. */
  function ExportedName(s: string, upperNext: bool): string {
    if s == "" then ""
    else if s[0] == '_' then ExportedName(s[1..], true)
    else [if upperNext && 'a' <= s[0] <= 'z' then s[0] - 'a' + 'A' else s[0]] + ExportedName(s[1..], false)
  }

  /** The reflection fallback: any string field under its exported name. */
  function SetByReflection(j: Job, name: string, v: string): Option<Job> {
    match name
    case "ID" => Some(j.(id := v))
    case "Project" => Some(j.(project := v))
    case "SessionKey" => Some(j.(sessionKey := v))
    case "CronExpr" => Some(j.(cronExpr := v))
    case "Prompt" => Some(j.(prompt := v))
    case "Exec" => Some(j.(exec := v))
    case "WorkDir" => Some(j.(workDir := v))
    case "Description" => Some(j.(description := v))
    case "SessionMode" => Some(j.(sessionMode := v))
    case "Mode" => Some(j.(mode := v))
    case "LastError" => Some(j.(lastError := v))
    case _ => None
  }

  function SetDocumented(j: Job, field: string, v: Value): Option<Job> {
    if field == "project" && v.Str? then Some(j.(project := v.s))
    else if field == "session_key" && v.Str? then Some(j.(sessionKey := v.s))
    else if field == "cron_expr" && v.Str? then Some(j.(cronExpr := v.s))
    else if field == "prompt" && v.Str? then Some(j.(prompt := v.s))
    else if field == "exec" && v.Str? then Some(j.(exec := v.s))
    else if field == "work_dir" && v.Str? then Some(j.(workDir := v.s))
    else if field == "description" && v.Str? then Some(j.(description := v.s))
    else if field == "enabled" && v.Bool? then Some(j.(enabled := v.b))
    else if field == "silent" && v.Bool? then Some(j.(silent := Some(v.b)))
    else if field == "mute" && v.Bool? then Some(j.(mute := v.b))
    else if field == "session_mode" && v.Str? then Some(j.(sessionMode := v.s))
    else if field == "mode" && v.Str? then Some(j.(mode := v.s))
    else if field == "timeout_mins" && v.Float? then Some(j.(timeoutMins := Some(Truncate(v.f))))
    else if field == "timeout_mins" && v.Int? then Some(j.(timeoutMins := Some(v.i)))
    else None
  }

  function SetField(j: Job, field: string, v: Value): Option<Job> {
    var documented := SetDocumented(j, field, v);
    if documented.Some? then documented
    else if v.Str? then SetByReflection(j, ExportedName(field, true), v.s)
    else None
  }

  // ----- the operations on values

  /** The first job with this id, or |jobs|. */
  function Find(jobs: seq<Job>, id: string): (i: nat)
    ensures i <= |jobs| && (i < |jobs| ==> jobs[i].id == id)
    ensures forall k :: 0 <= k < i ==> jobs[k].id != id
  {
    if jobs == [] || jobs[0].id == id then 0 else 1 + Find(jobs[1..], id)
  }

  function Unscheduled(s: State, id: string): State {
    if id in s.entries then s.(lib := s.lib - {s.entries[id]}, entries := s.entries - {id}) else s
  }

  /** scheduleJob: on a bad expression the old library entry is gone but its id stays. */
  function Scheduled(s: State, j: Job, parses: string -> bool): (State, bool) {
    var lib := if j.id in s.entries then s.lib - {s.entries[j.id]} else s.lib;
    if !parses(j.cronExpr) then (s.(lib := lib), false)
    else
      var e := s.lastEntry + 1;
      (s.(lib := lib[e := LibEntry(j.cronExpr, j.id)], entries := s.entries[j.id := e], lastEntry := e), true)
  }

  function Started(s: State, n: nat, parses: string -> bool): State
    requires n <= |s.jobs|
  {
    if n == 0 then s
    else
      var t := Started(s, n - 1, parses);
      if s.jobs[n - 1].enabled then Scheduled(t, s.jobs[n - 1], parses).0 else t
  }

  function Added(s: State, j: Job, parses: string -> bool, saved: bool): (State, bool) {
    if !ValidJob(j) || !parses(j.cronExpr) then (s, false)
    else
      var j1 := j.(sessionMode := NormalizeSessionMode(j.sessionMode));
      var s1 := s.(jobs := s.jobs + [j1]);
      if !saved then (s1, false) else if j1.enabled then Scheduled(s1, j1, parses) else (s1, true)
  }

  function Removed(s: State, id: string): (State, bool) {
    var s1 := Unscheduled(s, id);
    var i := Find(s.jobs, id);
    if i < |s.jobs| then (s1.(jobs := s.jobs[..i] + s.jobs[i + 1..]), true) else (s1, false)
  }

  function Enabled(s: State, id: string, parses: string -> bool): (State, bool) {
    var i := Find(s.jobs, id);
    if i == |s.jobs| then (s, false)
    else
      var j := s.jobs[i].(enabled := true);
      Scheduled(s.(jobs := s.jobs[i := j]), j, parses)
  }

  function Disabled(s: State, id: string): (State, bool) {
    var i := Find(s.jobs, id);
    if i == |s.jobs| then (s, false)
    else (Unscheduled(s.(jobs := s.jobs[i := s.jobs[i].(enabled := false)]), id), true)
  }

  /** The checks UpdateJob makes before it touches anything. */
  predicate Acceptable(field: string, v: Value, parses: string -> bool) {
    && (field == "cron_expr" ==> v.Str? && parses(v.s))
    && (field == "mode" && v.Str? ==> ValidMode(v.s))
    && (field == "session_mode" && v.Str? ==> v.s == "" || ValidSessionMode(v.s))
    && (field == "enabled" ==> v.Bool?)
  }

  /** The fields that decide whether and when a job runs. */
  predicate Reschedules(field: string) {
    field == "cron_expr" || field == "enabled"
  }

  function Updated(s: State, id: string, field: string, v: Value, parses: string -> bool): (State, bool) {
    var i := Find(s.jobs, id);
    if i == |s.jobs| || !Acceptable(field, v, parses) then (s, false)
    else
      var reschedule := Reschedules(field);
      var s1 := if reschedule then Unscheduled(s, id) else s;
      if field in READ_ONLY || SetField(s.jobs[i], field, v).None? then (s1, false)
      else
        var j := SetField(s.jobs[i], field, v).value;
        var s2 := s1.(jobs := s.jobs[i := j]);
        if reschedule && j.enabled then Scheduled(s2, j, parses) else (s2, true)
  }

  // ----- the store and the scheduler

  class CronStore {
    var jobs: seq<Job>

    constructor (loaded: seq<Job>)
      ensures jobs == loaded
    {
      jobs := loaded;
    }

    method Add(j: Job, saved: bool) returns (ok: bool)
      modifies this
      ensures jobs == old(jobs) + [j] && ok == saved
    {
      jobs := jobs + [j];
      return saved;
    }

    method Search(id: string) returns (i: nat)
      ensures i == Find(jobs, id)
    {
      i := 0;
      while i < |jobs|
        invariant i <= |jobs| && Find(jobs, id) == i + Find(jobs[i..], id)
      {
        if jobs[i].id == id { return; }
        assert jobs[i..][1..] == jobs[i + 1..];
        i := i + 1;
      }
    }

    method Remove(id: string) returns (ok: bool)
      modifies this
      ensures var i := Find(old(jobs), id);
        ok == (i < |old(jobs)|) && jobs == if ok then old(jobs)[..i] + old(jobs)[i + 1..] else old(jobs)
    {
      var i := Search(id);
      ok := i < |jobs|;
      if ok { jobs := jobs[..i] + jobs[i + 1..]; }
    }

    method SetEnabled(id: string, enabled: bool) returns (ok: bool)
      modifies this
      ensures var i := Find(old(jobs), id);
        ok == (i < |old(jobs)|) && jobs == if ok then old(jobs)[i := old(jobs)[i].(enabled := enabled)] else old(jobs)
    {
      var i := Search(id);
      ok := i < |jobs|;
      if ok { jobs := jobs[i := jobs[i].(enabled := enabled)]; }
    }

    method Get(id: string) returns (j: Option<Job>)
      ensures var i := Find(jobs, id); j == if i < |jobs| then Some(jobs[i]) else None
    {
      var i := Search(id);
      return if i < |jobs| then Some(jobs[i]) else None;
    }

    method Update(id: string, field: string, v: Value) returns (ok: bool)
      modifies this
      ensures var i := Find(old(jobs), id);
        && ok == (field !in READ_ONLY && i < |old(jobs)| && SetField(old(jobs)[i], field, v).Some?)
        && jobs == if ok then old(jobs)[i := SetField(old(jobs)[i], field, v).value] else old(jobs)
    {
      if field in READ_ONLY { return false; }
      var i := Search(id);
      if i == |jobs| { return false; }
      var changed := SetField(jobs[i], field, v);
      if changed.None? { return false; }
      jobs := jobs[i := changed.value];
      return true;
    }
  }

  class CronScheduler {
    const store: CronStore
    const parses: string -> bool
    var entries: map<string, nat>
    var lib: map<nat, LibEntry>
    var lastEntry: nat

    ghost function View(): State
      reads this, store
    {
      State(store.jobs, entries, lib, lastEntry)
    }

    constructor (store: CronStore, parses: string -> bool)
      ensures this.store == store && this.parses == parses
      ensures View() == State(store.jobs, map[], map[], 0)
    {
      this.store, this.parses := store, parses;
      entries, lib, lastEntry := map[], map[], 0;
    }

    method Unschedule(id: string)
      modifies this
      ensures View() == Unscheduled(old(View()), id)
    {
      if id in entries {
        lib := lib - {entries[id]};
        entries := entries - {id};
      }
    }

    method ScheduleJob(j: Job) returns (ok: bool)
      modifies this
      ensures (View(), ok) == Scheduled(old(View()), j, parses)
    {
      if j.id in entries {
        lib := lib - {entries[j.id]};
      }
      if !parses(j.cronExpr) { return false; }
      lastEntry := lastEntry + 1;
      lib := lib[lastEntry := LibEntry(j.cronExpr, j.id)];
      entries := entries[j.id := lastEntry];
      return true;
    }

    method Start()
      modifies this
      ensures View() == Started(old(View()), |store.jobs|, parses)
    {
      var jobs := store.jobs;
      var i := 0;
      while i < |jobs|
        invariant i <= |jobs| && jobs == store.jobs && View() == Started(old(View()), i, parses)
      {
        if jobs[i].enabled {
          var ok := ScheduleJob(jobs[i]);
        }
        i := i + 1;
      }
    }

    method AddJob(j: Job, saved: bool) returns (ok: bool)
      modifies this, store
      ensures (View(), ok) == Added(old(View()), j, parses, saved)
    {
      if !ValidJob(j) || !parses(j.cronExpr) { return false; }
      var j1 := j.(sessionMode := NormalizeSessionMode(j.sessionMode));
      ok := store.Add(j1, saved);
      if !ok { return false; }
      if j1.enabled {
        ok := ScheduleJob(j1);
      }
    }

    method RemoveJob(id: string) returns (ok: bool)
      modifies this, store
      ensures (View(), ok) == Removed(old(View()), id)
    {
      Unschedule(id);
      ok := store.Remove(id);
    }

    method EnableJob(id: string) returns (ok: bool)
      modifies this, store
      ensures (View(), ok) == Enabled(old(View()), id, parses)
    {
      ok := store.SetEnabled(id, true);
      if !ok { return; }
      FindKept(old(store.jobs), id, old(store.jobs)[Find(old(store.jobs), id)].(enabled := true));
      var job := store.Get(id);
      ok := ScheduleJob(job.value);
    }

    method DisableJob(id: string) returns (ok: bool)
      modifies this, store
      ensures (View(), ok) == Disabled(old(View()), id)
    {
      ok := store.SetEnabled(id, false);
      if !ok { return; }
      Unschedule(id);
    }

    method UpdateJob(id: string, field: string, v: Value) returns (ok: bool)
      modifies this, store
      ensures (View(), ok) == Updated(old(View()), id, field, v, parses)
    {
      hide SetField, Acceptable, Scheduled, Unscheduled, Reschedules, Find, READ_ONLY;
      var job := store.Get(id);
      if job.None? || !Acceptable(field, v, parses) { return false; }
      var needsReschedule := Reschedules(field);
      if needsReschedule {
        Unschedule(id);
      }
      ok := store.Update(id, field, v);
      if !ok { return; }
      if needsReschedule {
        KeepsId(job.value, field, v, parses);
        FindKept(old(store.jobs), id, SetField(job.value, field, v).value);
        ok := Reschedule(id);
      }
    }

    /** Schedules the job as it is stored now, if it is enabled. */
    method Reschedule(id: string) returns (ok: bool)
      modifies this
      ensures var s := old(View()); var i := Find(s.jobs, id);
        (View(), ok) == if i < |s.jobs| && s.jobs[i].enabled then Scheduled(s, s.jobs[i], parses) else (s, true)
    {
      hide Scheduled, Find;
      ok := true;
      var updated := store.Get(id);
      if updated.Some? && updated.value.enabled {
        ok := ScheduleJob(updated.value);
      }
    }
  }

  /** The two fields that ask for rescheduling leave the id alone. */
  lemma KeepsId(j: Job, field: string, v: Value, parses: string -> bool)
    requires Reschedules(field) && Acceptable(field, v, parses)
    ensures SetField(j, field, v).Some? && SetField(j, field, v).value.id == j.id
  {
    hide ExportedName, SetByReflection;
  }

  /** Replacing a job under its own id does not move it. */
  lemma {:induction false} FindKept(jobs: seq<Job>, id: string, j: Job)
    requires Find(jobs, id) < |jobs| && j.id == id
    ensures Find(jobs[Find(jobs, id) := j], id) == Find(jobs, id)
  {
    if jobs[0].id != id {
      FindKept(jobs[1..], id, j);
      var i := Find(jobs, id);
      assert jobs[i := j][1..] == jobs[1..][i - 1 := j];
    }
  }
}
