/** The stored jobs, the scheduler's entry ids and the library's entries stay in agreement. */
module CronProperties {
  import opened Text
  import opened Cron

  ghost predicate UniqueIds(jobs: seq<Job>) {
    forall i, j :: 0 <= i < j < |jobs| ==> jobs[i].id != jobs[j].id
  }

  ghost predicate AllParse(jobs: seq<Job>, parses: string -> bool) {
    forall i :: 0 <= i < |jobs| ==> parses(jobs[i].cronExpr)
  }

  /** The expression `id` should be scheduled with: that of its stored job, if it is enabled. */
  function Wanted(jobs: seq<Job>, id: string): Option<string> {
    var i := Find(jobs, id);
    if i < |jobs| && jobs[i].enabled then Some(jobs[i].cronExpr) else None
  }

  /** `id` has an entry exactly if an enabled job wants one, and it is the wanted one. */
  predicate EntryOk(s: State, id: string) {
    match Wanted(s.jobs, id)
    case None => id !in s.entries
    case Some(expr) => id in s.entries && s.entries[id] in s.lib && s.lib[s.entries[id]] == LibEntry(expr, id)
  }

  /** Library entries and entry ids correspond one to one: no orphan, no duplicate. */
  ghost predicate EntriesExact(s: State) {
    && (forall e :: e in s.lib ==> e <= s.lastEntry && s.lib[e].jobId in s.entries && s.entries[s.lib[e].jobId] == e)
    && (forall id :: id in s.entries ==> s.entries[id] in s.lib && s.lib[s.entries[id]].jobId == id)
  }

  ghost predicate Agree(s: State, parses: string -> bool) {
    && UniqueIds(s.jobs) && AllParse(s.jobs, parses)
    && EntriesExact(s) && forall id :: EntryOk(s, id)
  }

  /** The agreement with the part of `id` left open. */
  ghost predicate AgreeExcept(s: State, id: string) {
    EntriesExact(s) && forall x :: x != id ==> EntryOk(s, x)
  }

  // ----- one job at a time

  lemma JobsChange(s: State, jobs: seq<Job>, id: string)
    requires AgreeExcept(s, id) && forall x :: x != id ==> Wanted(jobs, x) == Wanted(s.jobs, x)
    ensures AgreeExcept(s.(jobs := jobs), id)
  {
    forall x | x != id
      ensures EntryOk(s.(jobs := jobs), x)
    {
      assert EntryOk(s, x);
    }
  }

  lemma UnscheduledExcept(s: State, id: string)
    requires AgreeExcept(s, id)
    ensures AgreeExcept(Unscheduled(s, id), id)
    ensures id !in Unscheduled(s, id).entries && Unscheduled(s, id).jobs == s.jobs
  {
    var t := Unscheduled(s, id);
    forall x | x != id
      ensures EntryOk(t, x)
    {
      assert EntryOk(s, x);
    }
  }

  /** Scheduling the job closes its part. */
  lemma ScheduledCloses(s: State, j: Job, parses: string -> bool)
    requires AgreeExcept(s, j.id) && parses(j.cronExpr) && Wanted(s.jobs, j.id) == Some(j.cronExpr)
    ensures var (t, ok) := Scheduled(s, j, parses);
            ok && t.jobs == s.jobs && EntriesExact(t) && forall x :: EntryOk(t, x)
  {
    hide Wanted;
    var t := Scheduled(s, j, parses).0;
    forall x
      ensures EntryOk(t, x)
    {
      if x != j.id { assert EntryOk(s, x); }
    }
  }

  /** Having no entry closes the part of a job that wants none. */
  lemma AbsentCloses(s: State, id: string)
    requires AgreeExcept(s, id) && id !in s.entries && Wanted(s.jobs, id) == None
    ensures forall x :: EntryOk(s, x)
  {
  }

  // ----- the list of jobs

  lemma FindIs(jobs: seq<Job>, i: nat)
    requires UniqueIds(jobs) && i < |jobs|
    ensures Find(jobs, jobs[i].id) == i
  {
  }

  lemma Replaced(jobs: seq<Job>, i: nat, j: Job)
    requires UniqueIds(jobs) && i < |jobs| && j.id == jobs[i].id
    ensures UniqueIds(jobs[i := j])
    ensures Wanted(jobs[i := j], j.id) == if j.enabled then Some(j.cronExpr) else None
    ensures forall x :: x != j.id ==> Wanted(jobs[i := j], x) == Wanted(jobs, x)
  {
    ReplacedUnique(jobs, i, j);
    hide UniqueIds, Find;
    FindIs(jobs[i := j], i);
    forall x | x != j.id
      ensures Find(jobs[i := j], x) == Find(jobs, x)
    {
      var k := Find(jobs, x);
      if k < |jobs| {
        FindIs(jobs[i := j], k);
      }
    }
  }

  lemma ReplacedUnique(jobs: seq<Job>, i: nat, j: Job)
    requires UniqueIds(jobs) && i < |jobs| && j.id == jobs[i].id
    ensures UniqueIds(jobs[i := j])
  {
  }

  lemma FoundAt(jobs: seq<Job>, k: nat, x: string)
    requires UniqueIds(jobs) && k < |jobs| && jobs[k].id == x
    ensures Find(jobs, x) == k
  {
    FindIs(jobs, k);
    hide Find, UniqueIds;
  }

  lemma NotFound(jobs: seq<Job>, x: string)
    requires forall k :: 0 <= k < |jobs| ==> jobs[k].id != x
    ensures Find(jobs, x) == |jobs| && Wanted(jobs, x) == None
  {
  }

  lemma Dropped(jobs: seq<Job>, i: nat)
    requires UniqueIds(jobs) && i < |jobs|
    ensures var rest := jobs[..i] + jobs[i + 1..];
      && UniqueIds(rest) && Find(rest, jobs[i].id) == |rest| && Wanted(rest, jobs[i].id) == None
      && forall x :: x != jobs[i].id ==> Wanted(rest, x) == Wanted(jobs, x)
  {
    hide Find, Wanted, UniqueIds;
    var rest := jobs[..i] + jobs[i + 1..];
    DroppedUnique(jobs, i);
    NotFound(rest, jobs[i].id);
    forall x | x != jobs[i].id
      ensures Wanted(rest, x) == Wanted(jobs, x)
    {
      DroppedWanted(jobs, i, x);
    }
  }

  lemma DroppedUnique(jobs: seq<Job>, i: nat)
    requires UniqueIds(jobs) && i < |jobs|
    ensures var rest := jobs[..i] + jobs[i + 1..];
      UniqueIds(rest) && forall k :: 0 <= k < |rest| ==> rest[k].id != jobs[i].id
  {
    var rest := jobs[..i] + jobs[i + 1..];
    assert forall k :: 0 <= k < i ==> rest[k] == jobs[k];
    assert forall k :: i <= k < |rest| ==> rest[k] == jobs[k + 1];
  }

  lemma DroppedWanted(jobs: seq<Job>, i: nat, x: string)
    requires UniqueIds(jobs) && i < |jobs| && UniqueIds(jobs[..i] + jobs[i + 1..]) && x != jobs[i].id
    ensures Wanted(jobs[..i] + jobs[i + 1..], x) == Wanted(jobs, x)
  {
    hide UniqueIds;
    var rest := jobs[..i] + jobs[i + 1..];
    var k := Find(jobs, x);
    if k == |jobs| {
      forall p | 0 <= p < |rest|
        ensures rest[p].id != x
      {
        assert rest[p] == jobs[if p < i then p else p + 1];
      }
      NotFound(rest, x);
    } else if k < i {
      assert rest[k] == jobs[k];
      FoundAt(rest, k, x);
    } else {
      assert rest[k - 1] == jobs[k];
      FoundAt(rest, k - 1, x);
    }
  }

  lemma Appended(jobs: seq<Job>, j: Job)
    requires UniqueIds(jobs) && Find(jobs, j.id) == |jobs|
    ensures UniqueIds(jobs + [j])
    ensures Wanted(jobs + [j], j.id) == if j.enabled then Some(j.cronExpr) else None
    ensures forall x :: x != j.id ==> Wanted(jobs + [j], x) == Wanted(jobs, x)
  {
    FindIs(jobs + [j], |jobs|);
    forall x | x != j.id
      ensures Wanted(jobs + [j], x) == Wanted(jobs, x)
    {
      var k := Find(jobs, x);
      if k < |jobs| {
        FindIs(jobs + [j], k);
      }
    }
  }

  // ----- every operation

  lemma RemoveJobAgrees(s: State, id: string, parses: string -> bool)
    requires Agree(s, parses)
    ensures Agree(Removed(s, id).0, parses)
    ensures Removed(s, id).1 <==> Find(s.jobs, id) < |s.jobs|
    ensures id !in Removed(s, id).0.entries
  {
    hide Wanted, EntryOk, EntriesExact, UniqueIds, Unscheduled;
    var i := Find(s.jobs, id);
    UnscheduledExcept(s, id);
    var t := Unscheduled(s, id);
    if i < |s.jobs| {
      Dropped(s.jobs, i);
      JobsChange(t, s.jobs[..i] + s.jobs[i + 1..], id);
    } else {
      NotFound(s.jobs, id);
    }
    AbsentCloses(Removed(s, id).0, id);
  }

  lemma EnableJobAgrees(s: State, id: string, parses: string -> bool)
    requires Agree(s, parses)
    ensures Agree(Enabled(s, id, parses).0, parses)
    ensures Enabled(s, id, parses).1 <==> Find(s.jobs, id) < |s.jobs|
    ensures var (t, ok) := Enabled(s, id, parses); ok ==>
      id in t.entries && exists i :: 0 <= i < |s.jobs| == |t.jobs| && s.jobs[i].id == id && t.jobs[i] == s.jobs[i].(enabled := true)
  {
    hide Wanted, EntryOk, EntriesExact;
    var i := Find(s.jobs, id);
    if i < |s.jobs| {
      var j := s.jobs[i].(enabled := true);
      Replaced(s.jobs, i, j);
      JobsChange(s, s.jobs[i := j], id);
      ScheduledCloses(s.(jobs := s.jobs[i := j]), j, parses);
    }
  }

  lemma DisableJobAgrees(s: State, id: string, parses: string -> bool)
    requires Agree(s, parses)
    ensures Agree(Disabled(s, id).0, parses)
    ensures var (t, ok) := Disabled(s, id); ok ==>
      id !in t.entries && exists i :: 0 <= i < |s.jobs| == |t.jobs| && s.jobs[i].id == id && t.jobs[i] == s.jobs[i].(enabled := false)
  {
    hide Wanted, EntryOk, EntriesExact;
    var i := Find(s.jobs, id);
    if i < |s.jobs| {
      var j := s.jobs[i].(enabled := false);
      Replaced(s.jobs, i, j);
      var s1 := s.(jobs := s.jobs[i := j]);
      JobsChange(s, s1.jobs, id);
      UnscheduledExcept(s1, id);
      AbsentCloses(Unscheduled(s1, id), id);
    }
  }

  /** Exactly when AddJob keeps the agreement: it rejected the job, or the id is new and the
      job was saved or is not to be scheduled. */
  lemma AddJobAgreesIff(s: State, j: Job, parses: string -> bool, saved: bool)
    requires Agree(s, parses)
    ensures Agree(Added(s, j, parses, saved).0, parses)
       <==> !ValidJob(j) || !parses(j.cronExpr)
            || (Find(s.jobs, j.id) == |s.jobs| && (saved || !j.enabled))
  {
    hide ValidJob, EntriesExact;
    if ValidJob(j) && parses(j.cronExpr) {
      var j1 := j.(sessionMode := NormalizeSessionMode(j.sessionMode));
      var s1 := s.(jobs := s.jobs + [j1]);
      var t, n := Added(s, j, parses, saved).0, |s.jobs|;
      assert EntryOk(s, j.id);
      if Find(s.jobs, j.id) < n {
        assert t.jobs == s1.jobs;
        assert t.jobs[Find(s.jobs, j.id)].id == t.jobs[n].id;
      } else {
        Appended(s.jobs, j1);
        hide Wanted;
        JobsChange(s, s1.jobs, j.id);
        if !j.enabled {
          AbsentCloses(s1, j.id);
        } else if saved {
          ScheduledCloses(s1, j1, parses);
        } else {
          assert !EntryOk(s1, j.id);
        }
      }
    }
  }

  // ----- updating a field

  /** The update reaches the id or the expression through the reflection fallback: past the
      read-only list, the parser and the rescheduling, which all go by documented names. */
  predicate Bypasses(field: string, v: Value) {
    field !in DOCUMENTED && field !in READ_ONLY && v.Str? && ExportedName(field, true) in {"ID", "CronExpr"}
  }

  lemma ReflectionKeeps(j: Job, name: string, v: string)
    requires SetByReflection(j, name, v).Some?
    ensures var j' := SetByReflection(j, name, v).value;
      && j'.enabled == j.enabled
      && (name == "ID" ==> j' == j.(id := v)) && (name == "CronExpr" ==> j' == j.(cronExpr := v))
      && (name !in {"ID", "CronExpr"} ==> j'.id == j.id && j'.cronExpr == j.cronExpr)
  {
  }

  lemma ExportedHead(s: string)
    requires s != "" && 'a' <= s[0] <= 'z'
    ensures ExportedName(s, true) != "" && ExportedName(s, true)[0] == s[0] - 'a' + 'A'
  {
  }

  lemma DocumentedKeeps(j: Job, field: string, v: Value)
    ensures SetDocumented(j, field, v).Some? ==>
      var j' := SetDocumented(j, field, v).value;
      && field in DOCUMENTED && j'.id == j.id
      && (field != "enabled" ==> j'.enabled == j.enabled) && (field != "cron_expr" ==> j'.cronExpr == j.cronExpr)
    ensures field == "cron_expr" && v.Str? ==> SetDocumented(j, field, v) == Some(j.(cronExpr := v.s))
    ensures field == "enabled" && v.Bool? ==> SetDocumented(j, field, v) == Some(j.(enabled := v.b))
    ensures field in DOCUMENTED && v.Str? && SetDocumented(j, field, v).None? ==>
      field in {"enabled", "silent", "mute", "timeout_mins"}
  {
    hide Truncate;
  }

  lemma FallbackHead(field: string)
    requires field in {"enabled", "silent", "mute", "timeout_mins"}
    ensures ExportedName(field, true) !in {"ID", "CronExpr"}
  {
    ExportedHead(field);
    hide ExportedName;
  }

  lemma SetFieldKeeps(j: Job, field: string, v: Value)
    requires SetField(j, field, v).Some? && field !in READ_ONLY
    ensures var j' := SetField(j, field, v).value;
      && (field != "enabled" ==> j'.enabled == j.enabled)
      && (field == "cron_expr" && v.Str? ==> j' == j.(cronExpr := v.s))
      && (field == "enabled" && v.Bool? ==> j' == j.(enabled := v.b))
      && (!Bypasses(field, v) ==> j'.id == j.id && (field != "cron_expr" ==> j'.cronExpr == j.cronExpr))
  {
    DocumentedKeeps(j, field, v);
    hide SetDocumented, SetByReflection, ExportedName;
    if SetDocumented(j, field, v).None? {
      ReflectionKeeps(j, ExportedName(field, true), v.s);
      if field in DOCUMENTED { FallbackHead(field); }
    }
  }

  /** Writing back a changed job that has no entry, and rescheduling it if it is enabled. */
  lemma RewrittenAgrees(s: State, i: nat, j: Job, parses: string -> bool)
    requires UniqueIds(s.jobs) && AllParse(s.jobs, parses) && AgreeExcept(s, j.id) && j.id !in s.entries
    requires i < |s.jobs| && j.id == s.jobs[i].id && parses(j.cronExpr)
    ensures var t := s.(jobs := s.jobs[i := j]);
            Agree(if j.enabled then Scheduled(t, j, parses).0 else t, parses)
            && (j.enabled ==> Scheduled(t, j, parses).1)
  {
    hide Wanted, EntryOk, EntriesExact;
    Replaced(s.jobs, i, j);
    var t := s.(jobs := s.jobs[i := j]);
    JobsChange(s, t.jobs, j.id);
    if j.enabled {
      ScheduledCloses(t, j, parses);
    } else {
      AbsentCloses(t, j.id);
    }
  }

  /** Writing back a job with the same id, expression and enabled flag needs no rescheduling. */
  lemma SameScheduleAgrees(s: State, i: nat, j: Job, parses: string -> bool)
    requires Agree(s, parses) && i < |s.jobs|
    requires j.id == s.jobs[i].id && j.cronExpr == s.jobs[i].cronExpr && j.enabled == s.jobs[i].enabled
    ensures Agree(s.(jobs := s.jobs[i := j]), parses)
  {
    Replaced(s.jobs, i, j);
    FindIs(s.jobs, i);
    var t := s.(jobs := s.jobs[i := j]);
    forall x
      ensures EntryOk(t, x)
    {
      assert EntryOk(s, x) && Wanted(t.jobs, x) == Wanted(s.jobs, x);
    }
  }

  lemma UpdateJobAgrees(s: State, id: string, field: string, v: Value, parses: string -> bool)
    requires Agree(s, parses) && !Bypasses(field, v)
    ensures Agree(Updated(s, id, field, v, parses).0, parses)
  {
    hide Wanted, EntryOk, EntriesExact, SetField, Bypasses;
    var i := Find(s.jobs, id);
    if i < |s.jobs| && Acceptable(field, v, parses) && field !in READ_ONLY {
      if Reschedules(field) {
        SettableAgain(s.jobs[i], field, v);
        SetFieldKeeps(s.jobs[i], field, v);
        UnscheduledExcept(s, id);
        RewrittenAgrees(Unscheduled(s, id), i, SetField(s.jobs[i], field, v).value, parses);
      } else if SetField(s.jobs[i], field, v).Some? {
        SetFieldKeeps(s.jobs[i], field, v);
        SameScheduleAgrees(s, i, SetField(s.jobs[i], field, v).value, parses);
      }
    }
  }

  lemma SettableAgain(j: Job, field: string, v: Value)
    requires (field == "cron_expr" && v.Str?) || (field == "enabled" && v.Bool?)
    ensures SetField(j, field, v).Some?
  {
  }

  /** A change of the id or the expression that the scheduler need not hear of: none at all, or,
      of a disabled job, to an id no job has or to an expression that parses. */
  predicate Unheard(jobs: seq<Job>, i: nat, name: string, v: string, parses: string -> bool)
    requires i < |jobs|
  {
    if name == "ID" then v == jobs[i].id || (!jobs[i].enabled && Find(jobs, v) == |jobs|)
    else v == jobs[i].cronExpr || (!jobs[i].enabled && parses(v))
  }

  /** Exactly when updating a field keeps the agreement: unless the fallback changes the id or
      the expression of a stored job, and the scheduler ought to have heard of it. */
  lemma UpdateJobAgreesIff(s: State, id: string, field: string, v: Value, parses: string -> bool)
    requires Agree(s, parses)
    ensures var i := Find(s.jobs, id);
      Agree(Updated(s, id, field, v, parses).0, parses)
      <==> !Bypasses(field, v) || i == |s.jobs| || Unheard(s.jobs, i, ExportedName(field, true), v.s, parses)
  {
    var i := Find(s.jobs, id);
    if !Bypasses(field, v) {
      UpdateJobAgrees(s, id, field, v, parses);
    } else if i < |s.jobs| {
      BypassUpdates(s, id, field, v, parses);
      assert ExportedName(field, true) in {"ID", "CronExpr"};
      hide ExportedName, Bypasses, Updated, Agree, Find;
      if ExportedName(field, true) == "ID" { IdAgreesIff(s, i, v.s, parses); } else { ExprAgreesIff(s, i, v.s, parses); }
    }
  }

  /** The field name "ID" takes that way, so an enabled job given a new id under it is left
      scheduled under the old one. */
  lemma IdBreaksAgreement(s: State, i: nat, v: string, parses: string -> bool)
    requires Agree(s, parses) && i < |s.jobs| && s.jobs[i].enabled && v != s.jobs[i].id
    ensures Bypasses("ID", Str(v)) && !Agree(Updated(s, s.jobs[i].id, "ID", Str(v), parses).0, parses)
  {
    IdIsExported();
    FindIs(s.jobs, i);
    UpdateJobAgreesIff(s, s.jobs[i].id, "ID", Str(v), parses);
    hide ExportedName, Updated, Agree, Find;
  }

  lemma IdIsExported()
    ensures ExportedName("ID", true) == "ID" && "ID" !in DOCUMENTED && "ID" !in READ_ONLY
  {
    assert "ID"[1..] == "D" && "D"[1..] == "";
  }

  /** Changing the id of a stored job behind the scheduler's back. */
  lemma IdAgreesIff(s: State, i: nat, v: string, parses: string -> bool)
    requires Agree(s, parses) && i < |s.jobs|
    ensures Agree(s.(jobs := s.jobs[i := s.jobs[i].(id := v)]), parses)
      <==> v == s.jobs[i].id || (!s.jobs[i].enabled && Find(s.jobs, v) == |s.jobs|)
  {
    hide EntriesExact;
    var j := s.jobs[i].(id := v);
    var t := s.(jobs := s.jobs[i := j]);
    FindIs(s.jobs, i);
    assert EntryOk(s, s.jobs[i].id);
    if v == s.jobs[i].id {
      assert t.jobs == s.jobs && t == s;
    } else if s.jobs[i].enabled {
      MisplacedEntry(s, i, j, s.jobs[i].id);
      assert !EntryOk(t, s.jobs[i].id);
    } else if Find(s.jobs, v) < |s.jobs| {
      TwoWithOneId(t.jobs, i, Find(s.jobs, v));
    } else {
      Renamed(s.jobs, i, v);
      SameEntries(s, t.jobs);
      forall x
        ensures EntryOk(t, x)
      {
        assert EntryOk(s, x);
      }
    }
  }

  lemma TwoWithOneId(jobs: seq<Job>, i: nat, k: nat)
    requires i < |jobs| && k < |jobs| && i != k && jobs[i].id == jobs[k].id
    ensures !UniqueIds(jobs)
  {
  }

  lemma SameEntries(s: State, jobs: seq<Job>)
    ensures EntriesExact(s.(jobs := jobs)) == EntriesExact(s)
  {
  }

  /** A disabled job is wanted under no id, so a new id wants nothing more. */
  lemma Renamed(jobs: seq<Job>, i: nat, v: string)
    requires UniqueIds(jobs) && i < |jobs| && !jobs[i].enabled && Find(jobs, v) == |jobs|
    ensures UniqueIds(jobs[i := jobs[i].(id := v)])
    ensures forall x :: Wanted(jobs[i := jobs[i].(id := v)], x) == Wanted(jobs, x)
  {
    var after := jobs[i := jobs[i].(id := v)];
    assert forall k :: 0 <= k < |jobs| ==> jobs[k].id != v;
    assert UniqueIds(after);
    forall x
      ensures Wanted(after, x) == Wanted(jobs, x)
    {
      RenamedWanted(jobs, after, i, v, x);
    }
  }

  lemma RenamedWanted(jobs: seq<Job>, after: seq<Job>, i: nat, v: string, x: string)
    requires UniqueIds(jobs) && UniqueIds(after) && i < |jobs| && !jobs[i].enabled
    requires after == jobs[i := jobs[i].(id := v)]
    requires forall k :: 0 <= k < |jobs| ==> jobs[k].id != v
    ensures Wanted(after, x) == Wanted(jobs, x)
  {
    var k := Find(jobs, x);
    if x == v {
      FoundAt(after, i, x);
      NotFound(jobs, x);
    } else if k < |jobs| && k != i {
      FoundAt(after, k, x);
    } else if k == i {
      assert forall k :: 0 <= k < |after| ==> after[k].id != x;
      NotFound(after, x);
    } else {
      assert forall k :: 0 <= k < |jobs| ==> jobs[k].id != x;
      NotFound(after, x);
    }
  }

  /** Changing the expression of a stored job behind the scheduler's back. */
  lemma ExprAgreesIff(s: State, i: nat, v: string, parses: string -> bool)
    requires Agree(s, parses) && i < |s.jobs|
    ensures Agree(s.(jobs := s.jobs[i := s.jobs[i].(cronExpr := v)]), parses)
      <==> v == s.jobs[i].cronExpr || (!s.jobs[i].enabled && parses(v))
  {
    hide EntriesExact;
    var j := s.jobs[i].(cronExpr := v);
    var t := s.(jobs := s.jobs[i := j]);
    FindIs(s.jobs, i);
    if v == s.jobs[i].cronExpr {
      assert t.jobs == s.jobs && t == s;
    } else if s.jobs[i].enabled {
      assert EntryOk(s, j.id);
      MisplacedEntry(s, i, j, j.id);
      assert !EntryOk(t, j.id);
    } else if parses(v) {
      Replaced(s.jobs, i, j);
      SameEntries(s, t.jobs);
      forall x
        ensures EntryOk(t, x)
      {
        assert EntryOk(s, x);
      }
    } else {
      assert !parses(t.jobs[i].cronExpr);
    }
  }

  lemma BypassUpdates(s: State, id: string, field: string, v: Value, parses: string -> bool)
    requires Bypasses(field, v) && Find(s.jobs, id) < |s.jobs|
    ensures var i := Find(s.jobs, id);
            Updated(s, id, field, v, parses).0 == s.(jobs := s.jobs[i :=
              if ExportedName(field, true) == "ID" then s.jobs[i].(id := v.s) else s.jobs[i].(cronExpr := v.s)])
  {
    var j := s.jobs[Find(s.jobs, id)];
    var name := ExportedName(field, true);
    DocumentedKeeps(j, field, v);
    assert SetByReflection(j, name, v.s) == if name == "ID" then Some(j.(id := v.s)) else Some(j.(cronExpr := v.s));
    hide ExportedName, SetByReflection, SetDocumented;
  }

  /** An enabled job's entry no longer fits once its id or expression changed under it. */
  lemma MisplacedEntry(s: State, i: nat, j: Job, id: string)
    requires UniqueIds(s.jobs) && i < |s.jobs| && s.jobs[i].id == id && s.jobs[i].enabled && EntryOk(s, id)
    requires j.id != id || (j.id == id && j.enabled && j.cronExpr != s.jobs[i].cronExpr)
    ensures !EntryOk(s.(jobs := s.jobs[i := j]), id)
  {
    FindIs(s.jobs, i);
    var jobs := s.jobs[i := j];
    if j.id == id {
      Replaced(s.jobs, i, j);
    } else {
      assert forall k :: 0 <= k < |jobs| ==> jobs[k].id != id;
      assert Find(jobs, id) == |jobs|;
    }
  }

  // ----- starting, and runs

  lemma ScheduledFirst(s: State, j: Job, parses: string -> bool)
    requires EntriesExact(s) && j.id !in s.entries && parses(j.cronExpr) && Wanted(s.jobs, j.id) == Some(j.cronExpr)
    ensures var t := Scheduled(s, j, parses).0;
      && EntriesExact(t) && EntryOk(t, j.id) && t.jobs == s.jobs
      && forall x :: x != j.id ==> EntryOk(t, x) == EntryOk(s, x) && (x in t.entries <==> x in s.entries)
  {
    hide Wanted;
  }

  lemma {:induction false} StartedPrefix(jobs: seq<Job>, n: nat, parses: string -> bool)
    requires UniqueIds(jobs) && AllParse(jobs, parses) && n <= |jobs|
    ensures var t := Started(State(jobs, map[], map[], 0), n, parses);
      && t.jobs == jobs && EntriesExact(t)
      && forall x :: if Find(jobs, x) < n then EntryOk(t, x) else x !in t.entries
  {
    if n > 0 {
      StartedPrefix(jobs, n - 1, parses);
      var s := Started(State(jobs, map[], map[], 0), n - 1, parses);
      var t := Started(State(jobs, map[], map[], 0), n, parses);
      var j := jobs[n - 1];
      FindIs(jobs, n - 1);
      assert j.id !in s.entries && Wanted(jobs, j.id) == if j.enabled then Some(j.cronExpr) else None;
      if j.enabled { ScheduledFirst(s, j, parses); }
      hide Wanted, EntriesExact, Scheduled;
      forall x
        ensures if Find(jobs, x) < n then EntryOk(t, x) else x !in t.entries
      {
        assert if Find(jobs, x) < n - 1 then EntryOk(s, x) else x !in s.entries;
        assert Find(jobs, x) == n - 1 ==> x == j.id;
      }
    }
  }

  /** After Start, with distinct ids and valid expressions on disk, everything agrees. */
  lemma {:induction false} StartAgrees(jobs: seq<Job>, parses: string -> bool)
    requires UniqueIds(jobs) && AllParse(jobs, parses)
    ensures Agree(Started(State(jobs, map[], map[], 0), |jobs|, parses), parses)
  {
    StartedPrefix(jobs, |jobs|, parses);
    var t := Started(State(jobs, map[], map[], 0), |jobs|, parses);
    forall x
      ensures EntryOk(t, x)
    {
      assert if Find(jobs, x) < |jobs| then EntryOk(t, x) else x !in t.entries;
    }
  }

  datatype Op =
    | AddJob(job: Job, saved: bool)
    | RemoveJob(id: string)
    | EnableJob(id: string)
    | DisableJob(id: string)
    | UpdateJob(id: string, field: string, value: Value)

  function After(s: State, op: Op, parses: string -> bool): State {
    match op
    case AddJob(j, saved) => Added(s, j, parses, saved).0
    case RemoveJob(id) => Removed(s, id).0
    case EnableJob(id) => Enabled(s, id, parses).0
    case DisableJob(id) => Disabled(s, id).0
    case UpdateJob(id, field, v) => Updated(s, id, field, v, parses).0
  }

  /** New jobs have new ids and are saved; fields go by their documented names. */
  predicate Proper(s: State, op: Op) {
    match op
    case AddJob(j, saved) => saved && Find(s.jobs, j.id) == |s.jobs|
    case UpdateJob(_, field, v) => !Bypasses(field, v)
    case _ => true
  }

  function StateAfter(jobs: seq<Job>, ops: seq<Op>, parses: string -> bool): State {
    if ops == [] then Started(State(jobs, map[], map[], 0), |jobs|, parses)
    else After(StateAfter(jobs, ops[..|ops| - 1], parses), ops[|ops| - 1], parses)
  }

  /** In every sequential run after Start the scheduled ids are exactly the enabled stored
      jobs, and the library has exactly one entry per scheduled id. */
  lemma {:induction false} EveryRunAgrees(jobs: seq<Job>, ops: seq<Op>, parses: string -> bool)
    requires UniqueIds(jobs) && AllParse(jobs, parses)
    requires forall i :: 0 <= i < |ops| ==> Proper(StateAfter(jobs, ops[..i], parses), ops[i])
    ensures Agree(StateAfter(jobs, ops, parses), parses)
  {
    hide Agree, Proper;
    if ops == [] {
      StartAgrees(jobs, parses);
    } else {
      var n := |ops| - 1;
      assert forall i :: 0 <= i < n ==> ops[..n][..i] == ops[..i];
      EveryRunAgrees(jobs, ops[..n], parses);
      OpAgrees(StateAfter(jobs, ops[..n], parses), ops[n], parses);
    }
  }

  lemma OpAgrees(s: State, op: Op, parses: string -> bool)
    requires Agree(s, parses) && Proper(s, op)
    ensures Agree(After(s, op, parses), parses)
  {
    hide Agree;
    match op {
      case AddJob(j, saved) => AddJobAgreesIff(s, j, parses, saved);
      case RemoveJob(id) => RemoveJobAgrees(s, id, parses);
      case EnableJob(id) => EnableJobAgrees(s, id, parses);
      case DisableJob(id) => DisableJobAgrees(s, id, parses);
      case UpdateJob(id, field, v) => UpdateJobAgrees(s, id, field, v, parses);
    }
  }
}
