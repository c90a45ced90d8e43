/** The in-process job registry of src/lib/scheduler.ts: a map from job name to a
    node-cron task, an "initialized" flag, and the lifecycle operations over them.

    node-cron itself is not part of this model: a scheduled task is reduced to its
    cron expression and whether it is started, and `cron.validate` is passed in as a
    predicate on strings. The job's task closure is represented only by the outcome of
    one firing. */
module Scheduling {
  import opened Common

  /** The configuration handed to `register`; `enabled` may be left undefined. */
  datatype ScheduledJob = ScheduledJob(name: string, schedule: string, enabled: Option<bool>)

  /** A node-cron scheduled task as the registry sees it. */
  datatype Task = Task(schedule: string, active: bool)

  /** The registry's abstract state: the job map and the `isInitialized` flag. */
  datatype RegistryState = RegistryState(jobs: map<string, Task>, initialized: bool)

  /** Which branch of `register` was taken (each logs a different message). */
  datatype Registration = AlreadyRegistered | Disabled | InvalidSchedule | Registered

  /** What the task wrapper does with one firing of a job. */
  datatype TaskOutcome = Resolved | Threw(error: string)
  datatype Firing = Completed(job: string) | Caught(job: string, error: string)

  const Initial := RegistryState(map[], false)

  /** Every task of a stopped scheduler is stopped. */
  ghost predicate Quiescent(s: RegistryState) {
    !s.initialized ==> forall n :: n in s.jobs ==> !s.jobs[n].active
  }

  // ---------------------------------------------------------------------------
  // The operations, as functions of the state (src/lib/scheduler.ts:34-118)
  // ---------------------------------------------------------------------------

  function AfterRegister(s: RegistryState, job: ScheduledJob, scheduleValid: bool): (r: (RegistryState, Registration))
    ensures r.1 == AlreadyRegistered <==> job.name in s.jobs
    ensures r.1 == Disabled <==> job.name !in s.jobs && job.enabled == Some(false)
    ensures r.1 == Registered <==> job.name !in s.jobs && job.enabled != Some(false) && scheduleValid
    ensures r.1 != Registered ==> r.0 == s
    ensures r.1 == Registered ==>
      && r.0.jobs.Keys == s.jobs.Keys + {job.name}
      && r.0.jobs[job.name] == Task(job.schedule, false)
      && (forall n :: n in s.jobs ==> r.0.jobs[n] == s.jobs[n])
      && r.0.initialized == s.initialized
  {
    if job.name in s.jobs then (s, AlreadyRegistered)
    else if job.enabled == Some(false) then (s, Disabled)
    else if !scheduleValid then (s, InvalidSchedule)
    else (s.(jobs := s.jobs[job.name := Task(job.schedule, false)]), Registered)
  }

  /** Every task, with its `active` flag set to `on`. */
  function SetAll(jobs: map<string, Task>, on: bool): (r: map<string, Task>)
    ensures r.Keys == jobs.Keys
    ensures forall n :: n in r ==> r[n].schedule == jobs[n].schedule && r[n].active == on
  {
    map n | n in jobs :: jobs[n].(active := on)
  }

  function AfterStart(s: RegistryState): (r: RegistryState)
    ensures s.initialized ==> r == s
    ensures r.initialized && r.jobs.Keys == s.jobs.Keys
    ensures forall n :: n in r.jobs ==> r.jobs[n].schedule == s.jobs[n].schedule
    ensures !s.initialized ==> forall n :: n in r.jobs ==> r.jobs[n].active
  {
    if s.initialized then s else RegistryState(SetAll(s.jobs, true), true)
  }

  function AfterStop(s: RegistryState): (r: RegistryState)
    ensures !r.initialized && r.jobs.Keys == s.jobs.Keys
    ensures forall n :: n in r.jobs ==> r.jobs[n] == Task(s.jobs[n].schedule, false)
  {
    RegistryState(SetAll(s.jobs, false), false)
  }

  function AfterUnregister(s: RegistryState, name: string): (r: RegistryState)
    ensures name !in s.jobs ==> r == s
    ensures r.jobs.Keys == s.jobs.Keys - {name}
    ensures forall n :: n in r.jobs ==> r.jobs[n] == s.jobs[n]
    ensures r.initialized == s.initialized
  {
    if name in s.jobs then s.(jobs := s.jobs - {name}) else s
  }

  /** The wrapper around a job's task: a rejection is caught and logged, never rethrown. */
  function Wrap(name: string, outcome: TaskOutcome): (f: Firing)
    ensures f.job == name
    ensures f.Caught? <==> outcome.Threw?
    ensures f.Caught? ==> f.error == outcome.error
  {
    match outcome
    case Resolved => Completed(name)
    case Threw(e) => Caught(name, e)
  }

  // ---------------------------------------------------------------------------
  // Sequences of calls
  // ---------------------------------------------------------------------------

  /** One call on the registry; `valid` is what `cron.validate` said of the schedule. */
  datatype Call =
    | RegisterCall(job: ScheduledJob, valid: bool)
    | StartCall
    | StopCall
    | UnregisterCall(name: string)
    | FireCall(name: string, outcome: TaskOutcome)

  function Apply(s: RegistryState, c: Call): RegistryState {
    match c
    case RegisterCall(job, valid) => AfterRegister(s, job, valid).0
    case StartCall => AfterStart(s)
    case StopCall => AfterStop(s)
    case UnregisterCall(name) => AfterUnregister(s, name)
    case FireCall(_, _) => s
  }

  function Run(s: RegistryState, calls: seq<Call>): RegistryState
    decreases |calls|
  {
    if calls == [] then s else Run(Apply(s, calls[0]), calls[1..])
  }

  /** Each call keeps a stopped scheduler's tasks stopped. */
  lemma ApplyKeepsQuiescent(s: RegistryState, c: Call)
    requires Quiescent(s)
    ensures Quiescent(Apply(s, c))
  {
    match c
    case RegisterCall(job, valid) =>
      var r := AfterRegister(s, job, valid);
      if r.1 == Registered {
        forall n | n in r.0.jobs && !r.0.initialized
          ensures !r.0.jobs[n].active
        {
          if n != job.name {
            assert n in s.jobs;
          }
        }
      }
    case StartCall =>
    case StopCall =>
    case UnregisterCall(name) =>
    case FireCall(_, _) =>
  }

  /** Whatever calls are made, a scheduler that is not running has no started task. */
  lemma {:induction false} RunKeepsQuiescent(s: RegistryState, calls: seq<Call>)
    requires Quiescent(s)
    ensures Quiescent(Run(s, calls))
    decreases |calls|
  {
    if calls != [] {
      ApplyKeepsQuiescent(s, calls[0]);
      RunKeepsQuiescent(Apply(s, calls[0]), calls[1..]);
    }
  }

  lemma InitialQuiescent()
    ensures Quiescent(Initial)
  {
  }

  /** A task that is stopped while the scheduler runs stays stopped until `stop()` is
      called: `start()` refuses to run again and `register` only adds stopped tasks. */
  lemma {:induction false} StoppedWhileRunning(s: RegistryState, calls: seq<Call>, name: string)
    requires s.initialized
    requires name in s.jobs ==> !s.jobs[name].active
    requires forall i :: 0 <= i < |calls| ==> !calls[i].StopCall?
    ensures Run(s, calls).initialized
    ensures name in Run(s, calls).jobs ==> !Run(s, calls).jobs[name].active
    decreases |calls|
  {
    if calls != [] {
      var t := Apply(s, calls[0]);
      assert t.initialized;
      assert name in t.jobs ==> !t.jobs[name].active by {
        match calls[0]
        case RegisterCall(job, valid) =>
          var r := AfterRegister(s, job, valid);
          if r.1 == Registered && name != job.name && name in t.jobs {
            assert name in s.jobs;
          }
        case StartCall =>
        case StopCall =>
        case UnregisterCall(_) =>
        case FireCall(_, _) =>
      }
      StoppedWhileRunning(t, calls[1..], name);
    }
  }

  /** In particular, a job registered while the scheduler runs is not started. */
  lemma RegisteredWhileRunning(s: RegistryState, job: ScheduledJob, valid: bool, later: seq<Call>)
    requires s.initialized
    requires AfterRegister(s, job, valid).1 == Registered
    requires forall i :: 0 <= i < |later| ==> !later[i].StopCall?
    ensures var t := Run(AfterRegister(s, job, valid).0, later);
      job.name in t.jobs ==> !t.jobs[job.name].active
  {
    StoppedWhileRunning(AfterRegister(s, job, valid).0, later, job.name);
  }

  /** `stop()` is idempotent, and `start()` twice is `start()` once. */
  lemma StopIdempotent(s: RegistryState)
    ensures AfterStop(AfterStop(s)) == AfterStop(s)
    ensures AfterStart(AfterStart(s)) == AfterStart(s)
  {
  }

  // ---------------------------------------------------------------------------
  // The registry object
  // ---------------------------------------------------------------------------

  class Scheduler {
    /** `jobs: Map<string, ScheduledTask>`, split into its entries and its key order. */
    var jobs: map<string, Task>
    var order: seq<string>
    var isInitialized: bool

    ghost predicate Valid()
      reads this
    {
      Distinct(order) && Elements(order) == jobs.Keys
    }

    function State(): RegistryState
      reads this
    {
      RegistryState(jobs, isInitialized)
    }

    constructor ()
      ensures Valid() && State() == Initial && order == []
    {
      jobs := map[];
      order := [];
      isInitialized := false;
    }

    method Register(job: ScheduledJob, cronValid: string -> bool) returns (r: Registration)
      requires Valid()
      modifies this
      ensures Valid()
      ensures (State(), r) == AfterRegister(old(State()), job, cronValid(job.schedule))
      ensures order == if r == Registered then old(order) + [job.name] else old(order)
    {
      if job.name in jobs {
        return AlreadyRegistered;
      }
      if job.enabled == Some(false) {
        return Disabled;
      }
      if !cronValid(job.schedule) {
        return InvalidSchedule;
      }
      var task := Task(job.schedule, true);
      // stopped at once so that it does not run before start()
      task := task.(active := false);
      jobs := jobs[job.name := task];
      order := order + [job.name];
      r := Registered;
    }

    method Start()
      requires Valid()
      modifies this
      ensures Valid() && order == old(order)
      ensures State() == AfterStart(old(State()))
    {
      if isInitialized {
        return;
      }
      var i := 0;
      while i < |order|
        invariant 0 <= i <= |order| && Valid() && order == old(order)
        invariant jobs.Keys == old(jobs).Keys
        invariant forall k :: 0 <= k < i ==> jobs[order[k]] == old(jobs)[order[k]].(active := true)
        invariant forall k :: i <= k < |order| ==> jobs[order[k]] == old(jobs)[order[k]]
      {
        jobs := jobs[order[i] := jobs[order[i]].(active := true)];
        i := i + 1;
      }
      isInitialized := true;
      assert jobs == SetAll(old(jobs), true) by {
        forall n | n in jobs ensures jobs[n] == old(jobs)[n].(active := true) {
          var k :| 0 <= k < |order| && order[k] == n;
        }
      }
    }

    method Stop()
      requires Valid()
      modifies this
      ensures Valid() && order == old(order)
      ensures State() == AfterStop(old(State()))
    {
      var i := 0;
      while i < |order|
        invariant 0 <= i <= |order| && Valid() && order == old(order)
        invariant jobs.Keys == old(jobs).Keys
        invariant forall k :: 0 <= k < i ==> jobs[order[k]] == old(jobs)[order[k]].(active := false)
        invariant forall k :: i <= k < |order| ==> jobs[order[k]] == old(jobs)[order[k]]
      {
        jobs := jobs[order[i] := jobs[order[i]].(active := false)];
        i := i + 1;
      }
      isInitialized := false;
      assert jobs == SetAll(old(jobs), false) by {
        forall n | n in jobs ensures jobs[n] == old(jobs)[n].(active := false) {
          var k :| 0 <= k < |order| && order[k] == n;
        }
      }
    }

    method Unregister(name: string)
      requires Valid()
      modifies this
      ensures Valid()
      ensures State() == AfterUnregister(old(State()), name)
      ensures order == Without(old(order), name)
    {
      if name !in jobs {
        return;
      }
      jobs := jobs - {name};
      order := Without(order, name);
    }

    /** `Array.from(this.jobs.keys())`: the names in registration order. */
    method GetJobs() returns (names: seq<string>)
      requires Valid()
      ensures names == order
      ensures Distinct(names) && |names| == |jobs|
      ensures forall n :: n in names <==> n in jobs
    {
      names := [];
      var i := 0;
      while i < |order|
        invariant 0 <= i <= |order| && names == order[..i]
      {
        names := names + [order[i]];
        i := i + 1;
      }
      assert order[..|order|] == order;
      DistinctCardinality(order);
    }

    method IsRunning() returns (running: bool)
      ensures running == State().initialized
    {
      running := isInitialized;
    }

    /** One firing of a registered job's wrapped task. The method modifies nothing,
        so a task that throws leaves the map and the flag as they were. */
    method Fire(name: string, outcome: TaskOutcome) returns (f: Firing)
      ensures f == Wrap(name, outcome)
      ensures f.Caught? <==> outcome.Threw?
    {
      match outcome
      case Resolved =>
        f := Completed(name);
      case Threw(e) =>
        f := Caught(name, e);
    }
  }

  /** `order` with `name` taken out (the key order after `Map.delete`). */
  function Without(order: seq<string>, name: string): (r: seq<string>)
    ensures forall n :: n in r <==> n in order && n != name
    ensures Distinct(order) ==> Distinct(r)
    ensures |r| <= |order|
    ensures name !in order ==> r == order
    ensures Distinct(order) && name in order ==>
      exists k :: 0 <= k < |order| && order[k] == name && r == order[..k] + order[k + 1..]
  {
    if order == [] then []
    else
      var rest := Without(order[1..], name);
      var r := if order[0] == name then rest else [order[0]] + rest;
      WithoutMembers(order, name, rest);
      WithoutDistinct(order, name, rest);
      if name !in order then
        assert order == [order[0]] + order[1..];
        r
      else
        assert Distinct(order) ==>
          exists k :: 0 <= k < |order| && order[k] == name && r == order[..k] + order[k + 1..] by {
          if Distinct(order) {
            DistinctTail(order);
            WithoutCut(order, name, rest);
          }
        }
        r
  }

  /** Distinctness of `Without` carries over from the tail of the order to the whole. */
  lemma WithoutDistinct(order: seq<string>, name: string, rest: seq<string>)
    requires order != []
    requires forall n :: n in rest <==> n in order[1..] && n != name
    requires Distinct(order[1..]) ==> Distinct(rest)
    ensures var r := if order[0] == name then rest else [order[0]] + rest;
      Distinct(order) ==> Distinct(r)
  {
    if Distinct(order) {
      DistinctTail(order);
      if order[0] != name { DistinctCons(order[0], rest); }
    }
  }

  /** Membership in `Without` carries over from the tail of the order to the whole. */
  lemma WithoutMembers(order: seq<string>, name: string, rest: seq<string>)
    requires order != []
    requires forall n :: n in rest <==> n in order[1..] && n != name
    ensures var r := if order[0] == name then rest else [order[0]] + rest;
      forall n :: n in r <==> n in order && n != name
  {
    assert order == [order[0]] + order[1..];
  }

  /** The position at which `Without` cuts carries over from the tail to the whole. */
  lemma WithoutCut(order: seq<string>, name: string, rest: seq<string>)
    requires order != [] && name in order
    requires order[0] !in order[1..] && Distinct(order[1..])
    requires name !in order[1..] ==> rest == order[1..]
    requires name in order[1..] ==>
      exists k :: 0 <= k < |order[1..]| && order[1..][k] == name && rest == order[1..][..k] + order[1..][k + 1..]
    ensures var r := if order[0] == name then rest else [order[0]] + rest;
      exists k :: 0 <= k < |order| && order[k] == name && r == order[..k] + order[k + 1..]
  {
    if order[0] == name {
      assert rest == order[..0] + order[1..];
    } else {
      assert name in order[1..];
      var k :| 0 <= k < |order[1..]| && order[1..][k] == name && rest == order[1..][..k] + order[1..][k + 1..];
      WithoutPosition(order, k, rest);
      assert order[k + 1] == name;
    }
  }

  /** Cutting the name out of the tail at position `k` cuts it out of the whole order
      at position `k + 1`. */
  lemma WithoutPosition(order: seq<string>, k: nat, rest: seq<string>)
    requires k + 1 < |order| && rest == order[1..][..k] + order[1..][k + 1..]
    ensures [order[0]] + rest == order[..k + 1] + order[k + 2..]
  {
    var before, after := order[1..][..k], order[1..][k + 1..];
    assert order[..k + 1] == [order[0]] + before;
    assert order[k + 2..] == after;
    calc {
      [order[0]] + rest;
      [order[0]] + (before + after);
      ([order[0]] + before) + after;
    }
  }

  lemma DistinctTail(s: seq<string>)
    requires s != [] && Distinct(s)
    ensures s[0] !in s[1..] && Distinct(s[1..])
  {
    forall i, j | 0 <= i < j < |s[1..]| ensures s[1..][i] != s[1..][j] {
      assert s[1..][i] == s[i + 1] && s[1..][j] == s[j + 1];
    }
    forall j | 0 <= j < |s[1..]| ensures s[1..][j] != s[0] {
      assert s[1..][j] == s[j + 1];
    }
  }

  lemma DistinctCons(x: string, rest: seq<string>)
    requires x !in rest && Distinct(rest)
    ensures Distinct([x] + rest)
  {
    var s := [x] + rest;
    forall i, j | 0 <= i < j < |s| ensures s[i] != s[j] {
      assert s[j] == rest[j - 1];
      if i > 0 { assert s[i] == rest[i - 1]; }
    }
  }
}
