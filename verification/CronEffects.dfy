/** What each operation of the scheduler does to the stored list, field by field, told without
    the functions that compute it (core/cron.go). */
module CronEffects {
  import opened Text
  import opened Cron
  import opened CronProperties

  /** Job `i` is the one the store finds under `id`: the first with that id. */
  ghost predicate Named(jobs: seq<Job>, id: string, i: nat) {
    i < |jobs| && jobs[i].id == id && forall k :: 0 <= k < i ==> jobs[k].id != id
  }

  ghost predicate Stored(jobs: seq<Job>, id: string) {
    exists i :: 0 <= i < |jobs| && jobs[i].id == id
  }

  lemma FindNamed(jobs: seq<Job>, id: string)
    ensures Stored(jobs, id) <==> Find(jobs, id) < |jobs|
    ensures forall i: nat :: Named(jobs, id, i) <==> i == Find(jobs, id) < |jobs|
  {
    hide Find;
  }

  /** The list is the same but for the job found under `id`, which is now `j`. */
  ghost predicate OnlyThatJob(before: seq<Job>, after: seq<Job>, id: string, j: Job) {
    && |after| == |before|
    && forall i :: 0 <= i < |before| ==> after[i] == if Named(before, id, i) then j else before[i]
  }

  /** Every other id keeps its entry. */
  ghost predicate OthersKeepEntries(s: State, t: State, id: string) {
    forall x :: x != id ==> (x in t.entries <==> x in s.entries) && (x in s.entries ==> t.entries[x] == s.entries[x])
  }

  /** The job has an entry that runs it on its schedule. */
  predicate HasEntry(s: State, j: Job) {
    j.id in s.entries && s.entries[j.id] in s.lib && s.lib[s.entries[j.id]] == LibEntry(j.cronExpr, j.id)
  }

  lemma ReplacedOnly(jobs: seq<Job>, id: string, j: Job)
    requires Find(jobs, id) < |jobs|
    ensures OnlyThatJob(jobs, jobs[Find(jobs, id) := j], id, j)
  {
    FindNamed(jobs, id);
    hide Find, Named;
  }

  // ----- enabling, disabling, removing, adding

  /** EnableJob sets `enabled` of exactly the job with that id and gives it an entry. */
  lemma EnableEffect(s: State, id: string, parses: string -> bool, i: nat)
    ensures !Stored(s.jobs, id) ==> Enabled(s, id, parses) == (s, false)
    ensures Named(s.jobs, id, i) ==>
      var (t, ok) := Enabled(s, id, parses);
      var j := s.jobs[i].(enabled := true);
      && OnlyThatJob(s.jobs, t.jobs, id, j) && OthersKeepEntries(s, t, id)
      && ok == parses(j.cronExpr) && (ok ==> HasEntry(t, j))
  {
    FindNamed(s.jobs, id);
    if Named(s.jobs, id, i) { ReplacedOnly(s.jobs, id, s.jobs[i].(enabled := true)); }
    hide Find, OnlyThatJob, Named, Stored;
  }

  /** DisableJob clears `enabled` of exactly the job with that id and takes its entry away. */
  lemma DisableEffect(s: State, id: string, i: nat)
    ensures !Stored(s.jobs, id) ==> Disabled(s, id) == (s, false)
    ensures Named(s.jobs, id, i) ==>
      var (t, ok) := Disabled(s, id);
      && ok && OnlyThatJob(s.jobs, t.jobs, id, s.jobs[i].(enabled := false))
      && OthersKeepEntries(s, t, id) && id !in t.entries
  {
    FindNamed(s.jobs, id);
    if Named(s.jobs, id, i) { ReplacedOnly(s.jobs, id, s.jobs[i].(enabled := false)); }
    hide Find, OnlyThatJob, Named, Stored;
  }

  /** RemoveJob drops exactly the job with that id, and its entry; all others keep their order. */
  lemma RemoveEffect(s: State, id: string, i: nat)
    ensures var (t, ok) := Removed(s, id);
      && ok == Stored(s.jobs, id) && id !in t.entries && OthersKeepEntries(s, t, id)
      && (!ok ==> t.jobs == s.jobs)
      && (Named(s.jobs, id, i) ==>
            && |t.jobs| == |s.jobs| - 1
            && forall k :: 0 <= k < |t.jobs| ==> t.jobs[k] == s.jobs[if k < i then k else k + 1])
  {
    FindNamed(s.jobs, id);
    hide Find, Named, Stored;
  }

  /** The session modes that are understood: no matter the case or the white space around it. */
  predicate KnownSessionMode(mode: string) {
    AsciiLower(TrimSpace(mode)) in {"", "reuse", "new_per_run", "new-per-run"}
  }

  /** What AddJob wants of a job. */
  ghost predicate Wellformed(j: Job, parses: string -> bool) {
    && !AllSpace(j.sessionKey) && parses(j.cronExpr) && KnownSessionMode(j.sessionMode)
    && j.mode in {"", "default", "bypassPermissions", "acceptEdits", "plan", "auto", "dontAsk"}
    && (j.timeoutMins.Some? ==> j.timeoutMins.value >= 0)
  }

  lemma ValidIs(j: Job, parses: string -> bool)
    ensures Wellformed(j, parses) <==> ValidJob(j) && parses(j.cronExpr)
    ensures Wellformed(j, parses) ==>
      NormalizeSessionMode(j.sessionMode) == if AsciiLower(TrimSpace(j.sessionMode)) in {"", "reuse"} then "" else "new_per_run"
  {
    TrimSpaceBlank(j.sessionKey);
    LowerOfKnown(TrimSpace(j.sessionMode));
    hide TrimSpace, AsciiLower;
  }

  /** A mode that reads as a known one is one, but for the case of its letters. */
  lemma LowerOfKnown(mode: string)
    ensures mode in {"", "new_per_run"} ==> AsciiLower(mode) == mode
  {
    LowerStays("");
    LowerStays("new_per_run");
  }

  lemma {:induction false} LowerStays(s: string)
    requires forall i :: 0 <= i < |s| ==> !('A' <= s[i] <= 'Z')
    ensures AsciiLower(s) == s
  {
    if s != "" {
      LowerStays(s[1..]);
      assert [s[0]] + s[1..] == s;
    }
  }

  /** AddJob appends exactly that job, its session mode brought to one spelling, or nothing. */
  lemma AddEffect(s: State, j: Job, parses: string -> bool, saved: bool)
    ensures !Wellformed(j, parses) ==> Added(s, j, parses, saved) == (s, false)
    ensures Wellformed(j, parses) ==>
      var (t, ok) := Added(s, j, parses, saved);
      var kept := j.(sessionMode := if AsciiLower(TrimSpace(j.sessionMode)) in {"", "reuse"} then "" else "new_per_run");
      && t.jobs == s.jobs + [kept] && ok == saved && OthersKeepEntries(s, t, j.id)
      && (if saved && j.enabled then HasEntry(t, kept) else t.entries == s.entries)
  {
    ValidIs(j, parses);
    hide ValidJob, NormalizeSessionMode, Wellformed, AsciiLower, TrimSpace;
  }

  // ----- updating one field

  /** The fields of a job, by their names in the Go struct. The times are not modelled. */
  datatype Field =
    | ID | Project | SessionKey | CronExpr | Prompt | Exec | WorkDir | Description
    | EnabledFlag | SilentFlag | MuteFlag | SessionMode | Mode | TimeoutMins | LastError
  {
    function GoName(): string {
      match this
      case ID => "ID"
      case Project => "Project"
      case SessionKey => "SessionKey"
      case CronExpr => "CronExpr"
      case Prompt => "Prompt"
      case Exec => "Exec"
      case WorkDir => "WorkDir"
      case Description => "Description"
      case EnabledFlag => "Enabled"
      case SilentFlag => "Silent"
      case MuteFlag => "Mute"
      case SessionMode => "SessionMode"
      case Mode => "Mode"
      case TimeoutMins => "TimeoutMins"
      case LastError => "LastError"
    }

    /** The name in an update, for the fields that have one. */
    function Name(): string {
      match this
      case Project => "project"
      case SessionKey => "session_key"
      case CronExpr => "cron_expr"
      case Prompt => "prompt"
      case Exec => "exec"
      case WorkDir => "work_dir"
      case Description => "description"
      case EnabledFlag => "enabled"
      case SilentFlag => "silent"
      case MuteFlag => "mute"
      case SessionMode => "session_mode"
      case Mode => "mode"
      case TimeoutMins => "timeout_mins"
      case _ => ""
    }

    predicate IsString() {
      this !in {EnabledFlag, SilentFlag, MuteFlag, TimeoutMins}
    }
  }

  function FieldOf(j: Job, f: Field): Value {
    match f
    case ID => Str(j.id)
    case Project => Str(j.project)
    case SessionKey => Str(j.sessionKey)
    case CronExpr => Str(j.cronExpr)
    case Prompt => Str(j.prompt)
    case Exec => Str(j.exec)
    case WorkDir => Str(j.workDir)
    case Description => Str(j.description)
    case EnabledFlag => Bool(j.enabled)
    case SilentFlag => if j.silent.Some? then Bool(j.silent.value) else Other
    case MuteFlag => Bool(j.mute)
    case SessionMode => Str(j.sessionMode)
    case Mode => Str(j.mode)
    case TimeoutMins => if j.timeoutMins.Some? then Int(j.timeoutMins.value) else Other
    case LastError => Str(j.lastError)
  }

  /** Job `k` is job `j` with one field set. */
  ghost predicate SetsOnly(j: Job, k: Job, f: Field, v: Value) {
    forall g: Field :: FieldOf(k, g) == if g == f then v else FieldOf(j, g)
  }

  /** The fields tell jobs apart, so what is said of all fields is said of the job. */
  lemma FieldsTell(j: Job, k: Job)
    requires forall g: Field :: FieldOf(j, g) == FieldOf(k, g)
    ensures j == k
  {
    hide *;
    FieldsTellFirst(j, k);
    FieldsTellLast(j, k);
  }

  lemma FieldsTellFirst(j: Job, k: Job)
    requires forall g: Field :: FieldOf(j, g) == FieldOf(k, g)
    ensures j.id == k.id && j.project == k.project && j.sessionKey == k.sessionKey && j.cronExpr == k.cronExpr
    ensures j.prompt == k.prompt && j.exec == k.exec && j.workDir == k.workDir && j.description == k.description
  {
    assert FieldOf(j, ID) == FieldOf(k, ID);
    assert FieldOf(j, Project) == FieldOf(k, Project);
    assert FieldOf(j, SessionKey) == FieldOf(k, SessionKey);
    assert FieldOf(j, CronExpr) == FieldOf(k, CronExpr);
    assert FieldOf(j, Prompt) == FieldOf(k, Prompt);
    assert FieldOf(j, Exec) == FieldOf(k, Exec);
    assert FieldOf(j, WorkDir) == FieldOf(k, WorkDir);
    assert FieldOf(j, Description) == FieldOf(k, Description);
  }

  lemma FieldsTellLast(j: Job, k: Job)
    requires forall g: Field :: FieldOf(j, g) == FieldOf(k, g)
    ensures j.enabled == k.enabled && j.silent == k.silent && j.mute == k.mute && j.sessionMode == k.sessionMode
    ensures j.mode == k.mode && j.timeoutMins == k.timeoutMins && j.lastError == k.lastError
  {
    assert FieldOf(j, EnabledFlag) == FieldOf(k, EnabledFlag);
    assert FieldOf(j, SilentFlag) == FieldOf(k, SilentFlag);
    assert FieldOf(j, MuteFlag) == FieldOf(k, MuteFlag);
    assert FieldOf(j, SessionMode) == FieldOf(k, SessionMode);
    assert FieldOf(j, Mode) == FieldOf(k, Mode);
    assert FieldOf(j, TimeoutMins) == FieldOf(k, TimeoutMins);
    assert FieldOf(j, LastError) == FieldOf(k, LastError);
  }

  /** The Go name of a field from its name in an update. */
  function NameInGo(field: string): string {
    ExportedName(field, true)
  }

  lemma {:induction false} NameWord(w: string, rest: string)
    requires forall i :: 0 <= i < |w| ==> w[i] != '_'
    ensures ExportedName(w + rest, false) == w + ExportedName(rest, false)
  {
    if w == "" {
      assert w + rest == rest;
    } else {
      assert (w + rest)[1..] == w[1..] + rest;
      NameWord(w[1..], rest);
    }
  }

  /** A snake_case name of two words: each begins with a capital, the underscore goes. */
  lemma NameTwo(c: char, w: string, d: char, x: string)
    requires 'a' <= c <= 'z' && 'a' <= d <= 'z'
    requires (forall i :: 0 <= i < |w| ==> w[i] != '_') && (forall i :: 0 <= i < |x| ==> x[i] != '_')
    ensures NameInGo([c] + w + "_" + [d] + x) == [c - 'a' + 'A'] + w + [d - 'a' + 'A'] + x
  {
    var s := [c] + w + "_" + [d] + x;
    var rest := "_" + [d] + x;
    assert s[1..] == w + rest;
    NameWord(w, rest);
    assert rest[1..] == [d] + x && ([d] + x)[1..] == x;
    NameWord(x, "");
    assert x + "" == x;
  }

  lemma NameOne(c: char, w: string)
    requires 'a' <= c <= 'z' && forall i :: 0 <= i < |w| ==> w[i] != '_'
    ensures NameInGo([c] + w) == [c - 'a' + 'A'] + w
  {
    assert ([c] + w)[1..] == w;
    NameWord(w, "");
    assert w + "" == w;
  }

  /** The names used in updates are the Go names in snake_case. */
  lemma DocumentedNames()
    ensures NameInGo("project") == "Project" && NameInGo("session_key") == "SessionKey" && NameInGo("cron_expr") == "CronExpr"
    ensures NameInGo("prompt") == "Prompt" && NameInGo("exec") == "Exec" && NameInGo("work_dir") == "WorkDir"
    ensures NameInGo("description") == "Description" && NameInGo("enabled") == "Enabled" && NameInGo("silent") == "Silent"
    ensures NameInGo("mute") == "Mute" && NameInGo("session_mode") == "SessionMode" && NameInGo("mode") == "Mode"
    ensures NameInGo("timeout_mins") == "TimeoutMins"
  {
    hide ExportedName, NameInGo;
    NameOne('p', "roject");
    NameTwo('s', "ession", 'k', "ey");
    NameTwo('c', "ron", 'e', "xpr");
    NameOne('p', "rompt");
    NameOne('e', "xec");
    NameTwo('w', "ork", 'd', "ir");
    NameOne('d', "escription");
    NameOne('e', "nabled");
    NameOne('s', "ilent");
    NameOne('m', "ute");
    NameTwo('s', "ession", 'm', "ode");
    NameOne('m', "ode");
    NameTwo('t', "imeout", 'm', "ins");
    Spellings1();
    Spellings2();
    Spellings3();
    Spellings4();
  }

  lemma Spellings1()
    ensures ['p'] + "roject" == "project" && ['s'] + "ession" + "_" + ['k'] + "ey" == "session_key" && ['c'] + "ron" + "_" + ['e'] + "xpr" == "cron_expr"
    ensures ['p'] + "rompt" == "prompt" && ['e'] + "xec" == "exec" && ['w'] + "ork" + "_" + ['d'] + "ir" == "work_dir"
    ensures ['d'] + "escription" == "description"
  {
  }

  lemma Spellings2()
    ensures ['e'] + "nabled" == "enabled" && ['s'] + "ilent" == "silent" && ['m'] + "ute" == "mute"
    ensures ['s'] + "ession" + "_" + ['m'] + "ode" == "session_mode" && ['m'] + "ode" == "mode" && ['t'] + "imeout" + "_" + ['m'] + "ins" == "timeout_mins"
    ensures ['P'] + "roject" == "Project"
  {
  }

  lemma Spellings3()
    ensures ['S'] + "ession" + ['K'] + "ey" == "SessionKey" && ['C'] + "ron" + ['E'] + "xpr" == "CronExpr" && ['P'] + "rompt" == "Prompt"
    ensures ['E'] + "xec" == "Exec" && ['W'] + "ork" + ['D'] + "ir" == "WorkDir" && ['D'] + "escription" == "Description"
    ensures ['E'] + "nabled" == "Enabled"
  {
  }

  lemma Spellings4()
    ensures ['S'] + "ilent" == "Silent" && ['M'] + "ute" == "Mute" && ['S'] + "ession" + ['M'] + "ode" == "SessionMode"
    ensures ['M'] + "ode" == "Mode" && ['T'] + "imeout" + ['M'] + "ins" == "TimeoutMins"
  {
  }

  /** What is stored of a value: minutes lose what is behind the point. */
  function StoredAs(v: Value): Value {
    match v
    case Float(f) => Int(if f >= 0.0 then f.Floor else -((-f).Floor))
    case _ => v
  }

  /** A value of the kind of the field. */
  predicate Kind(f: Field, v: Value) {
    if f.IsString() then v.Str? else if f == TimeoutMins then v.Int? else v.Bool?
  }

  function Put(j: Job, f: Field, v: Value): Job
    requires Kind(f, v)
  {
    match f
    case ID => j.(id := v.s)
    case Project => j.(project := v.s)
    case SessionKey => j.(sessionKey := v.s)
    case CronExpr => j.(cronExpr := v.s)
    case Prompt => j.(prompt := v.s)
    case Exec => j.(exec := v.s)
    case WorkDir => j.(workDir := v.s)
    case Description => j.(description := v.s)
    case EnabledFlag => j.(enabled := v.b)
    case SilentFlag => j.(silent := Some(v.b))
    case MuteFlag => j.(mute := v.b)
    case SessionMode => j.(sessionMode := v.s)
    case Mode => j.(mode := v.s)
    case TimeoutMins => j.(timeoutMins := Some(v.i))
    case LastError => j.(lastError := v.s)
  }

  lemma PutSets(j: Job, f: Field, v: Value)
    requires Kind(f, v)
    ensures SetsOnly(j, Put(j, f, v), f, v)
  {
    forall g: Field
      ensures FieldOf(Put(j, f, v), g) == if g == f then v else FieldOf(j, g)
    {
      PutAt(j, f, v, g);
    }
    hide Put, FieldOf;
  }

  lemma PutAt(j: Job, f: Field, v: Value, g: Field)
    requires Kind(f, v)
    ensures FieldOf(Put(j, f, v), g) == if g == f then v else FieldOf(j, g)
  {
    if f.IsString() { PutStringAt(j, f, v, g); } else { PutOtherAt(j, f, v, g); }
    hide Put, FieldOf;
  }

  lemma PutStringAt(j: Job, f: Field, v: Value, g: Field)
    requires Kind(f, v) && f.IsString()
    ensures FieldOf(Put(j, f, v), g) == if g == f then v else FieldOf(j, g)
  {
  }

  lemma PutOtherAt(j: Job, f: Field, v: Value, g: Field)
    requires Kind(f, v) && !f.IsString()
    ensures FieldOf(Put(j, f, v), g) == if g == f then v else FieldOf(j, g)
  {
  }

  lemma ReflectionSets(j: Job, f: Field, v: string)
    requires f.IsString()
    ensures var r := SetByReflection(j, f.GoName(), v); r.Some? && SetsOnly(j, r.value, f, Str(v))
  {
    PutSets(j, f, Str(v));
    ReflectionPuts(j, f, v);
    hide *;
  }

  lemma ReflectionPuts(j: Job, f: Field, v: string)
    requires f.IsString()
    ensures Kind(f, Str(v)) && SetByReflection(j, f.GoName(), v) == Some(Put(j, f, Str(v)))
  {
  }

  lemma ReflectionMisses(j: Job, name: string, v: string)
    requires SetByReflection(j, name, v).Some?
    ensures exists f: Field :: f.IsString() && f.GoName() == name
  {
    var f := match name
      case "ID" => ID case "Project" => Project case "SessionKey" => SessionKey case "CronExpr" => CronExpr
      case "Prompt" => Prompt case "Exec" => Exec case "WorkDir" => WorkDir case "Description" => Description
      case "SessionMode" => SessionMode case "Mode" => Mode case _ => LastError;
    assert f.GoName() == name;
  }

  /** The documented names set the field of that name, to a value of its kind. */
  lemma DocumentedSets(j: Job, f: Field, v: Value)
    requires f != ID && f != LastError
    ensures var r := SetDocumented(j, f.Name(), v);
      && (r.Some? <==> Kind(f, StoredAs(v)))
      && (r.Some? ==> SetsOnly(j, r.value, f, StoredAs(v)))
  {
    if f.IsString() { DocumentedString(j, f, v); } else { DocumentedOther(j, f, v); }
    if Kind(f, StoredAs(v)) { PutSets(j, f, StoredAs(v)); }
    hide *;
  }

  lemma DocumentedString(j: Job, f: Field, v: Value)
    requires f != ID && f != LastError && f.IsString()
    ensures SetDocumented(j, f.Name(), v) == if Kind(f, StoredAs(v)) then Some(Put(j, f, StoredAs(v))) else None
  {
  }

  lemma DocumentedOther(j: Job, f: Field, v: Value)
    requires !f.IsString()
    ensures SetDocumented(j, f.Name(), v) == if Kind(f, StoredAs(v)) then Some(Put(j, f, StoredAs(v))) else None
  {
  }

  lemma DocumentedIs(j: Job, field: string, v: Value)
    requires SetDocumented(j, field, v).Some?
    ensures exists f: Field :: f != ID && f != LastError && f.Name() == field
  {
    var f := match field
      case "project" => Project case "session_key" => SessionKey case "cron_expr" => CronExpr
      case "prompt" => Prompt case "exec" => Exec case "work_dir" => WorkDir case "description" => Description
      case "enabled" => EnabledFlag case "silent" => SilentFlag case "mute" => MuteFlag
      case "session_mode" => SessionMode case "mode" => Mode case _ => TimeoutMins;
    assert f.Name() == field;
  }

  /** The name in an update leads to the field it names. */
  lemma NamesLead(f: Field)
    ensures f != ID && f != LastError ==> NameInGo(f.Name()) == f.GoName()
  {
    DocumentedNames();
    hide NameInGo;
  }

  lemma GoNamesDiffer(f: Field, g: Field)
    requires f.GoName() == g.GoName()
    ensures f == g
  {
  }

  /** A value goes into a field under a name: a string into a string field under any name that
      leads to it, other values into the field with that very name if they are of its kind. */
  ghost predicate Takes(f: Field, field: string, v: Value) {
    Kind(f, StoredAs(v)) && if f.IsString() then NameInGo(field) == f.GoName() else field == f.Name()
  }

  lemma SameField(f: Field, g: Field, field: string, v: Value)
    requires Takes(f, field, v) && g != ID && g != LastError && field == g.Name()
    ensures f == g
  {
    NamesLead(g);
    if !f.IsString() { NamesLead(f); }
    GoNamesDiffer(f, g);
    hide NameInGo, Kind;
  }

  lemma SetFieldIs(j: Job, field: string, v: Value)
    ensures SetDocumented(j, field, v).Some? ==> SetField(j, field, v) == SetDocumented(j, field, v)
    ensures SetDocumented(j, field, v).None? ==>
      SetField(j, field, v) == if v.Str? then SetByReflection(j, NameInGo(field), v.s) else None
  {
    hide SetDocumented, SetByReflection, ExportedName;
  }

  lemma TakesSets(j: Job, f: Field, field: string, v: Value)
    requires Takes(f, field, v)
    ensures SetField(j, field, v).Some? && SetsOnly(j, SetField(j, field, v).value, f, StoredAs(v))
  {
    SetFieldIs(j, field, v);
    hide SetField, SetDocumented, SetByReflection, SetsOnly, NameInGo;
    if SetDocumented(j, field, v).Some? {
      DocumentedIs(j, field, v);
      var g: Field :| g != ID && g != LastError && g.Name() == field;
      SameField(f, g, field, v);
      DocumentedSets(j, f, v);
    } else if v.Str? {
      ReflectionSets(j, f, v.s);
    } else {
      DocumentedSets(j, f, v);
    }
  }

  lemma SetTakes(j: Job, field: string, v: Value) returns (f: Field)
    requires SetField(j, field, v).Some?
    ensures Takes(f, field, v)
  {
    SetFieldIs(j, field, v);
    hide SetField, SetDocumented, SetByReflection, SetsOnly, NameInGo;
    if SetDocumented(j, field, v).Some? {
      DocumentedIs(j, field, v);
      f :| f != ID && f != LastError && f.Name() == field;
      DocumentedSets(j, f, v);
      NamesLead(f);
    } else {
      ReflectionMisses(j, NameInGo(field), v.s);
      f :| f.IsString() && f.GoName() == NameInGo(field);
    }
  }

  /** The checks UpdateJob makes on the value. */
  predicate PassesChecks(field: string, v: Value, parses: string -> bool) {
    && (field == "cron_expr" ==> v.Str? && parses(v.s))
    && (field == "mode" && v.Str? ==> v.s in {"", "default", "bypassPermissions", "acceptEdits", "plan", "auto", "dontAsk"})
    && (field == "session_mode" && v.Str? ==> KnownSessionMode(v.s))
    && (field == "enabled" ==> v.Bool?)
  }

  lemma ChecksAre(field: string, v: Value, parses: string -> bool)
    ensures PassesChecks(field, v, parses) <==> Acceptable(field, v, parses)
  {
    if v.Str? {
      LowerOfKnown(TrimSpace(v.s));
      TrimSpaceTrimmed("");
    }
    hide TrimSpace, AsciiLower;
  }

  /** The update may change the stored job. */
  ghost predicate Writable(field: string, v: Value, parses: string -> bool) {
    && PassesChecks(field, v, parses) && field !in {"id", "created_at", "last_run", "last_error"}
    && exists f: Field :: Takes(f, field, v)
  }

  /** UpdateJob changes nothing in the list, and fails, if there is no such job, a check on the
      value fails, the field is read-only, or no field takes the value. */
  lemma UpdateRejects(s: State, id: string, field: string, v: Value, parses: string -> bool)
    requires !Stored(s.jobs, id) || !Writable(field, v, parses)
    ensures var (t, ok) := Updated(s, id, field, v, parses); t.jobs == s.jobs && !ok
  {
    FindNamed(s.jobs, id);
    ChecksAre(field, v, parses);
    var n := Find(s.jobs, id);
    if n < |s.jobs| && SetField(s.jobs[n], field, v).Some? { var f := SetTakes(s.jobs[n], field, v); }
    UpdatedJobs(s, id, field, v, parses);
    hide Find, Stored, Takes, SetField, Updated, Acceptable, PassesChecks;
  }

  /** Otherwise it changes exactly the job with that id, and of that exactly the field that takes
      the value. */
  lemma UpdateSets(s: State, id: string, field: string, v: Value, parses: string -> bool, i: nat, f: Field) returns (j: Job)
    requires Named(s.jobs, id, i) && Writable(field, v, parses) && Takes(f, field, v)
    ensures SetsOnly(s.jobs[i], j, f, StoredAs(v))
    ensures var (t, ok) := Updated(s, id, field, v, parses);
      && OnlyThatJob(s.jobs, t.jobs, id, j)
      && (field !in {"cron_expr", "enabled"} ==> ok && t.entries == s.entries)
      && (field in {"cron_expr", "enabled"} && !j.enabled ==> ok && id !in t.entries)
      && (field in {"cron_expr", "enabled"} && j.enabled && j.id == id ==> ok == parses(j.cronExpr) && (ok ==> HasEntry(t, j)))
  {
    FindNamed(s.jobs, id);
    ChecksAre(field, v, parses);
    TakesSets(s.jobs[i], f, field, v);
    j := SetField(s.jobs[i], field, v).value;
    ReplacedOnly(s.jobs, id, j);
    UpdatedJobs(s, id, field, v, parses);
    hide Find, Named, Stored, OnlyThatJob, SetsOnly, Takes, SetField, Updated, Acceptable, PassesChecks;
  }

  lemma UpdatedJobs(s: State, id: string, field: string, v: Value, parses: string -> bool)
    ensures var n, (t, ok) := Find(s.jobs, id), Updated(s, id, field, v, parses);
      && var done := n < |s.jobs| && Acceptable(field, v, parses)
                     && field !in {"id", "created_at", "last_run", "last_error"} && SetField(s.jobs[n], field, v).Some?;
      && (!done ==> t.jobs == s.jobs && !ok)
      && (done ==>
            var j := SetField(s.jobs[n], field, v).value;
            && t.jobs == s.jobs[n := j]
            && (field !in {"cron_expr", "enabled"} ==> ok && t.entries == s.entries)
            && (field in {"cron_expr", "enabled"} && !j.enabled ==> ok && id !in t.entries)
            && (field in {"cron_expr", "enabled"} && j.enabled && j.id == id ==> ok == parses(j.cronExpr) && (ok ==> HasEntry(t, j))))
  {
    hide Find, SetField, Acceptable;
  }

  // ----- enabled, over runs

  /** Whether the job found under `id` is enabled. */
  function EnabledNow(jobs: seq<Job>, id: string): Option<bool> {
    if jobs == [] then None
    else if jobs[0].id == id then Some(jobs[0].enabled)
    else EnabledNow(jobs[1..], id)
  }

  /** What an operation leaves of that: only adding the job, removing it and switching it count. */
  ghost function LeftBy(before: Option<bool>, op: Op, id: string, parses: string -> bool): Option<bool> {
    match op
    case AddJob(j, _) => if j.id == id && Wellformed(j, parses) then Some(j.enabled) else before
    case RemoveJob(x) => if x == id then None else before
    case EnableJob(x) => if x == id && before.Some? then Some(true) else before
    case DisableJob(x) => if x == id && before.Some? then Some(false) else before
    case UpdateJob(x, field, v) =>
      if x == id && before.Some? && field == "enabled" && v.Bool? then Some(v.b) else before
  }

  ghost function LastLeft(jobs: seq<Job>, ops: seq<Op>, id: string, parses: string -> bool): Option<bool> {
    if ops == [] then EnabledNow(jobs, id)
    else LeftBy(LastLeft(jobs, ops[..|ops| - 1], id, parses), ops[|ops| - 1], id, parses)
  }

  lemma {:induction false} EnabledNowIs(jobs: seq<Job>, id: string)
    ensures EnabledNow(jobs, id) == if Find(jobs, id) < |jobs| then Some(jobs[Find(jobs, id)].enabled) else None
  {
    if jobs != [] && jobs[0].id != id { EnabledNowIs(jobs[1..], id); }
  }

  lemma {:induction false} EnabledReplaced(jobs: seq<Job>, i: nat, j: Job, id: string)
    requires i == Find(jobs, j.id) < |jobs|
    ensures EnabledNow(jobs[i := j], id) == if id == j.id then Some(j.enabled) else EnabledNow(jobs, id)
  {
    if i == 0 {
      assert jobs[i := j][1..] == jobs[1..];
    } else {
      assert jobs[i := j][1..] == jobs[1..][i - 1 := j];
      EnabledReplaced(jobs[1..], i - 1, j, id);
    }
  }

  lemma {:induction false} EnabledAppended(jobs: seq<Job>, j: Job, id: string)
    ensures EnabledNow(jobs + [j], id)
         == if EnabledNow(jobs, id).Some? then EnabledNow(jobs, id) else if j.id == id then Some(j.enabled) else None
  {
    if jobs == [] {
      assert [j][1..] == [];
    } else {
      assert (jobs + [j])[1..] == jobs[1..] + [j];
      EnabledAppended(jobs[1..], j, id);
    }
  }

  lemma {:induction false} EnabledRemoved(jobs: seq<Job>, i: nat, id: string)
    requires UniqueIds(jobs) && i < |jobs|
    ensures EnabledNow(jobs[..i] + jobs[i + 1..], id) == if id == jobs[i].id then None else EnabledNow(jobs, id)
  {
    var rest := jobs[..i] + jobs[i + 1..];
    if i == 0 {
      assert rest == jobs[1..];
      if id == jobs[0].id {
        EnabledNowIs(rest, id);
        assert forall k :: 0 <= k < |rest| ==> rest[k] == jobs[k + 1];
      }
    } else {
      assert rest[1..] == jobs[1..][..i - 1] + jobs[1..][i..];
      EnabledRemoved(jobs[1..], i - 1, id);
    }
  }

  lemma FieldsKept(j: Job, k: Job, f: Field, v: Value)
    requires SetsOnly(j, k, f, v)
    ensures f != ID ==> k.id == j.id
    ensures f == EnabledFlag && v.Bool? ==> k.enabled == v.b
    ensures f != EnabledFlag ==> k.enabled == j.enabled
  {
    assert FieldOf(k, ID) == if f == ID then v else FieldOf(j, ID);
    assert FieldOf(k, EnabledFlag) == if f == EnabledFlag then v else FieldOf(j, EnabledFlag);
    hide SetsOnly;
  }

  lemma DocumentedNotId(field: string)
    requires field in DOCUMENTED
    ensures NameInGo(field) != "ID"
  {
    DocumentedNames();
    hide NameInGo;
  }

  lemma NotTheId(f: Field, field: string, v: Value)
    requires Takes(f, field, v) && field !in READ_ONLY && !Bypasses(field, v)
    ensures f != ID && (f == EnabledFlag <==> field == "enabled")
  {
    if field == "enabled" { SameField(f, EnabledFlag, field, v); }
    if field in DOCUMENTED { DocumentedNotId(field); }
    hide ExportedName, DOCUMENTED, READ_ONLY;
  }

  lemma UpdateLeaves(s: State, x: string, field: string, v: Value, parses: string -> bool, id: string)
    requires !Bypasses(field, v)
    ensures EnabledNow(Updated(s, x, field, v, parses).0.jobs, id) == LeftBy(EnabledNow(s.jobs, id), UpdateJob(x, field, v), id, parses)
  {
    UpdatedJobs(s, x, field, v, parses);
    var n := Find(s.jobs, x);
    EnabledNowIs(s.jobs, x);
    if n < |s.jobs| && field == "enabled" && v.Bool? { TakesSets(s.jobs[n], EnabledFlag, field, v); }
    if n < |s.jobs| && Acceptable(field, v, parses) && field !in READ_ONLY && SetField(s.jobs[n], field, v).Some? {
      var j := SetField(s.jobs[n], field, v).value;
      var f := SetTakes(s.jobs[n], field, v);
      TakesSets(s.jobs[n], f, field, v);
      NotTheId(f, field, v);
      FieldsKept(s.jobs[n], j, f, StoredAs(v));
      hide Updated, SetField, Takes, SetsOnly, EnabledNow, Find, Bypasses;
      EnabledReplaced(s.jobs, n, j, id);
      assert field == "enabled" ==> v.Bool?;
    }
    hide Updated, SetField, EnabledNow, Find, Bypasses, Takes;
  }

  lemma AddLeaves(s: State, j: Job, saved: bool, parses: string -> bool, id: string)
    requires Find(s.jobs, j.id) == |s.jobs|
    ensures EnabledNow(Added(s, j, parses, saved).0.jobs, id) == LeftBy(EnabledNow(s.jobs, id), AddJob(j, saved), id, parses)
  {
    EnabledNowIs(s.jobs, id);
    AddEffect(s, j, parses, saved);
    hide Added, EnabledNow, Wellformed, Find, TrimSpace, AsciiLower;
    if Wellformed(j, parses) {
      var kept := j.(sessionMode := if AsciiLower(TrimSpace(j.sessionMode)) in {"", "reuse"} then "" else "new_per_run");
      EnabledAppended(s.jobs, kept, id);
    }
  }

  lemma RemoveLeaves(s: State, x: string, parses: string -> bool, id: string)
    requires UniqueIds(s.jobs)
    ensures EnabledNow(Removed(s, x).0.jobs, id) == LeftBy(EnabledNow(s.jobs, id), RemoveJob(x), id, parses)
  {
    EnabledNowIs(s.jobs, id);
    var n := Find(s.jobs, x);
    hide EnabledNow, Find, UniqueIds;
    if n < |s.jobs| { EnabledRemoved(s.jobs, n, id); }
  }

  lemma SwitchLeaves(s: State, x: string, parses: string -> bool, id: string)
    ensures EnabledNow(Enabled(s, x, parses).0.jobs, id) == LeftBy(EnabledNow(s.jobs, id), EnableJob(x), id, parses)
    ensures EnabledNow(Disabled(s, x).0.jobs, id) == LeftBy(EnabledNow(s.jobs, id), DisableJob(x), id, parses)
  {
    EnabledNowIs(s.jobs, id);
    var n := Find(s.jobs, x);
    hide EnabledNow, Find;
    if n < |s.jobs| {
      EnabledReplaced(s.jobs, n, s.jobs[n].(enabled := true), id);
      EnabledReplaced(s.jobs, n, s.jobs[n].(enabled := false), id);
    }
  }

  lemma StepLeaves(s: State, op: Op, parses: string -> bool, id: string)
    requires UniqueIds(s.jobs) && Proper(s, op)
    ensures EnabledNow(After(s, op, parses).jobs, id) == LeftBy(EnabledNow(s.jobs, id), op, id, parses)
  {
    hide Added, Removed, Enabled, Disabled, Updated, EnabledNow, LeftBy, Bypasses, UniqueIds, Find;
    match op {
      case AddJob(j, saved) => AddLeaves(s, j, saved, parses, id);
      case RemoveJob(x) => RemoveLeaves(s, x, parses, id);
      case EnableJob(x) => SwitchLeaves(s, x, parses, id);
      case DisableJob(x) => SwitchLeaves(s, x, parses, id);
      case UpdateJob(x, field, v) => UpdateLeaves(s, x, field, v, parses, id);
    }
  }

  /** In every sequential run after Start with new ids for new jobs and documented field names, a
      job is there and enabled exactly as the last operation on it left it. */
  lemma {:induction false} EnabledAsLeft(jobs: seq<Job>, ops: seq<Op>, parses: string -> bool, id: string)
    requires UniqueIds(jobs) && AllParse(jobs, parses)
    requires forall i :: 0 <= i < |ops| ==> Proper(StateAfter(jobs, ops[..i], parses), ops[i])
    ensures EnabledNow(StateAfter(jobs, ops, parses).jobs, id) == LastLeft(jobs, ops, id, parses)
  {
    if ops == [] {
      StartKeepsJobs(jobs, |jobs|, parses);
    } else {
      var n := |ops| - 1;
      assert forall i :: 0 <= i < n ==> ops[..n][..i] == ops[..i];
      EveryRunAgrees(jobs, ops[..n], parses);
      EnabledAsLeft(jobs, ops[..n], parses, id);
      hide *;
      StateAfterStep(jobs, ops, parses);
      StepLeaves(StateAfter(jobs, ops[..n], parses), ops[n], parses, id);
      LastLeftStep(jobs, ops, id, parses);
    }
  }

  lemma StateAfterStep(jobs: seq<Job>, ops: seq<Op>, parses: string -> bool)
    requires ops != []
    ensures StateAfter(jobs, ops, parses) == After(StateAfter(jobs, ops[..|ops| - 1], parses), ops[|ops| - 1], parses)
  {
    hide After;
  }

  lemma LastLeftStep(jobs: seq<Job>, ops: seq<Op>, id: string, parses: string -> bool)
    requires ops != []
    ensures LastLeft(jobs, ops, id, parses) == LeftBy(LastLeft(jobs, ops[..|ops| - 1], id, parses), ops[|ops| - 1], id, parses)
  {
    hide LeftBy;
  }

  lemma {:induction false} StartKeepsJobs(jobs: seq<Job>, n: nat, parses: string -> bool)
    requires n <= |jobs|
    ensures Started(State(jobs, map[], map[], 0), n, parses).jobs == jobs
  {
    if n > 0 { StartKeepsJobs(jobs, n - 1, parses); }
  }
}
