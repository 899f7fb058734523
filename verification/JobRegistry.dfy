/** Detached jobs of `cockpit/backend/app/hiroshima.py`: start, reap, watchdog, persist, reload.
    Each reap is atomic; what the operating system says at a step is an input of that step. */
module JobRegistry {
  import opened Lists
  import opened Sorting

  const JOB_TTL_S := 900
  const KEPT_FINISHED := 8
  const RUNS := {
    "scan", "defs", "aide-init", "aide-init-ack-stale", "rkhunter-setup", "isolate-dst", "isolate-undo",
    "kill-pid", "watch", "uplink-burst", "falco-burst"}

  datatype Status = Running | Done | TimedOut

  /** `pid` is 0 when missing; `stopped` is missing on a job that was started and never closed;
      `attached` says that this process holds the child. */
  datatype Job = Job(
    id: string, name: string, pid: int, t0: int, status: Status,
    stopped: Option<bool>, exitCode: Option<int>, attached: bool)

  /** The clock, the processes that are alive and still ours, and the exit codes of our children. */
  datatype Env = Env(now: int, live: set<(int, string)>, exits: map<int, int>)

  predicate Alive(env: Env, pid: int, name: string) {
    pid != 0 && (pid, name) in env.live
  }

  // ----- Reaping

  /** Terminal state; a job that is not running is left alone. */
  function Closed(j: Job, status: Status, code: Option<int>): Job {
    if j.status != Running then j else j.(status := status, stopped := Some(true), exitCode := code)
  }

  function Reaped(j: Job, env: Env): Job {
    if j.status != Running || j.pid == 0 then j
    else if !Alive(env, j.pid, j.name) then
      Closed(j, Done, if j.attached && j.pid in env.exits then Some(env.exits[j.pid]) else None)
    else if env.now - j.t0 > JOB_TTL_S then Closed(j, TimedOut, Some(-9))
    else j
  }

  function ReapedAll(jobs: seq<Job>, env: Env): seq<Job> {
    Map((j: Job) => Reaped(j, env), jobs)
  }

  // ----- Starting

  /** The job is running under this name and a reap leaves it running. */
  predicate Blocks(j: Job, name: string, env: Env) {
    j.name == name && Reaped(j, env).status == Running
  }

  /** The position of the first blocking job, or the size of the table. */
  function FirstBlock(jobs: seq<Job>, name: string, env: Env): nat {
    FirstIndex((j: Job) => Blocks(j, name, env), jobs)
  }

  /** The pass of a start over the table: jobs of the name are reaped up to the first that blocks. */
  function StartPass(jobs: seq<Job>, name: string, env: Env): (seq<Job>, bool) {
    var k := FirstBlock(jobs, name, env);
    (seq(|jobs|, i requires 0 <= i < |jobs| =>
           if i <= k && jobs[i].name == name then Reaped(jobs[i], env) else jobs[i]),
     k < |jobs|)
  }

  function NewJob(id: string, name: string, pid: int, env: Env): Job {
    Job(id, name, pid, env.now, Running, None, None, true)
  }

  // ----- Persisting and loading

  /** What is written of a job. */
  function Slim(j: Job): Job {
    j.(stopped := None, attached := false)
  }

  function StartTime(j: Job): int {
    j.t0
  }

  predicate IsRunning(j: Job) {
    j.status == Running
  }

  predicate IsFinished(j: Job) {
    j.status != Running
  }

  function Kept(jobs: seq<Job>): seq<Job> {
    Filter(IsRunning, jobs) + Take(SortDesc(StartTime, Filter(IsFinished, jobs)), KEPT_FINISHED)
  }

  function Persisted(jobs: seq<Job>): seq<Job> {
    Map(Slim, Kept(jobs))
  }

  /** A row read back: a running job whose process is gone or no longer ours is done. */
  function Revived(row: Job, env: Env): Job {
    var status := if row.status == Running && !Alive(env, row.pid, row.name) then Done else row.status;
    Job(row.id, if row.name != "" then row.name else "scan", row.pid, if row.t0 != 0 then row.t0 else env.now,
        status, Some(status != Running), row.exitCode, false)
  }

  predicate HasId(jobs: seq<Job>, id: string) {
    exists j :: j in jobs && j.id == id
  }

  function Loaded(rows: seq<Job>, jobs: seq<Job>, env: Env): seq<Job> {
    if rows == [] then jobs else
      var before, row := Loaded(rows[..|rows| - 1], jobs, env), rows[|rows| - 1];
      if row.id == "" || HasId(before, row.id) then before else before + [Revived(row, env)]
  }

  // ----- The registry

  datatype StartResult = NotConfirmed | UnknownRun | AlreadyRunning | Proceed

  /** The first locked section of a start: checks, then the pass over the table. */
  function BeginSpec(name: string, confirm: bool, env: Env, jobs: seq<Job>): (StartResult, seq<Job>) {
    var (passed, blocked) := StartPass(jobs, name, env);
    if !confirm then (NotConfirmed, jobs)
    else if name !in RUNS then (UnknownRun, jobs)
    else (if blocked then AlreadyRunning else Proceed, passed)
  }

  /** The second one: the spawned process enters the table, which is written. `pid` is 0 without a program. */
  function LaunchSpec(name: string, id: string, pid: int, env: Env, written: bool, jobs: seq<Job>, disk: seq<Job>)
    : (Option<Job>, seq<Job>, seq<Job>)
  {
    var job := NewJob(id, name, pid, env);
    if pid == 0 then (None, jobs, disk)
    else (Some(job), jobs + [job], if written then Persisted(jobs + [job]) else disk)
  }

  class Registry {
    var jobs: seq<Job>
    var disk: seq<Job>

    method Reap(k: nat, env: Env)
      requires k < |jobs|
      modifies this`jobs
      ensures jobs == old(jobs)[k := Reaped(old(jobs)[k], env)]
    {
      var j := jobs[k];
      if j.status != Running || j.pid == 0 {
        return;
      }
      if !Alive(env, j.pid, j.name) {
        jobs := jobs[k := Closed(j, Done, if j.attached && j.pid in env.exits then Some(env.exits[j.pid]) else None)];
      } else if env.now - j.t0 > JOB_TTL_S {
        jobs := jobs[k := Closed(j, TimedOut, Some(-9))];
      }
    }

    /** One pass over all jobs, as the watchdog and the listing make it. */
    method ReapAll(env: Env)
      modifies this`jobs
      ensures jobs == ReapedAll(old(jobs), env)
      ensures Good(old(jobs)) ==> AllVisited(old(jobs), jobs, env)
    {
      for k := 0 to |jobs|
        invariant |jobs| == |old(jobs)|
        invariant forall i :: 0 <= i < k ==> jobs[i] == Reaped(old(jobs)[i], env)
        invariant forall i :: k <= i < |jobs| ==> jobs[i] == old(jobs)[i]
      {
        Reap(k, env);
      }
      assert jobs == ReapedAll(old(jobs), env);
      if Good(old(jobs)) {
        PassVisitsAll(old(jobs), env);
      }
    }

    /** `written` is false when the file system refuses; the old file then stays. */
    method Persist(written: bool)
      modifies this`disk
      ensures disk == if written then Persisted(jobs) else old(disk)
    {
      if written {
        var kept := Filter(IsRunning, jobs);
        var done := SortDesc(StartTime, Filter(IsFinished, jobs));
        disk := Map(Slim, kept + Take(done, KEPT_FINISHED));
      }
    }

    method WatchTick(env: Env, written: bool)
      modifies this
      ensures jobs == ReapedAll(old(jobs), env)
      ensures disk == if written then Persisted(jobs) else old(disk)
      ensures Good(old(jobs)) ==> AllVisited(old(jobs), jobs, env)
    {
      ReapAll(env);
      Persist(written);
    }

    /** Reaps the running jobs of a name; true when one of them is still running. */
    method ReapName(name: string, env: Env) returns (blocked: bool)
      modifies this`jobs
      ensures (jobs, blocked) == StartPass(old(jobs), name, env)
    {
      blocked := false;
      var k := 0;
      while k < |jobs| && !blocked
        invariant 0 <= k <= |jobs| == |old(jobs)|
        invariant if blocked then k - 1 == FirstBlock(old(jobs), name, env) else k <= FirstBlock(old(jobs), name, env)
        invariant forall i :: 0 <= i < k ==>
          jobs[i] == if old(jobs)[i].name == name then Reaped(old(jobs)[i], env) else old(jobs)[i]
        invariant forall i :: k <= i < |jobs| ==> jobs[i] == old(jobs)[i]
        decreases |jobs| - k
      {
        if jobs[k].name == name && jobs[k].status == Running {
          Reap(k, env);
          blocked := jobs[k].status == Running;
        }
        k := k + 1;
      }
      assert jobs == StartPass(old(jobs), name, env).0;
    }

    /** `start_named` up to the release of the lock. */
    method BeginStart(name: string, confirm: bool, env: Env) returns (r: StartResult)
      modifies this`jobs
      ensures (r, jobs) == BeginSpec(name, confirm, env, old(jobs))
    {
      if !confirm {
        return NotConfirmed;
      }
      if name !in RUNS {
        return UnknownRun;
      }
      var blocked := ReapName(name, env);
      return if blocked then AlreadyRunning else Proceed;
    }

    /** `start_named` from the spawn on; `id` is the new random id. */
    method Launch(name: string, id: string, pid: int, env: Env, written: bool) returns (started: Option<Job>)
      modifies this
      ensures (started, jobs, disk) == LaunchSpec(name, id, pid, env, written, old(jobs), old(disk))
    {
      if pid == 0 {
        return None;
      }
      var job := NewJob(id, name, pid, env);
      jobs := jobs + [job];
      Persist(written);
      return Some(job);
    }

    method Load(env: Env)
      modifies this`jobs
      ensures jobs == Loaded(disk, old(jobs), env)
    {
      for k := 0 to |disk|
        invariant jobs == Loaded(disk[..k], old(jobs), env)
      {
        Snoc(disk, k);
        if disk[k].id != "" && !HasId(jobs, disk[k].id) {
          jobs := jobs + [Revived(disk[k], env)];
        }
      }
      Whole(disk);
    }
  }

  // ----- What every table keeps

  /** `stopped` holds exactly when a job is not running; a running job has a process id. */
  ghost predicate GoodJob(j: Job) {
    (j.stopped == Some(true) <==> j.status != Running) && GoodRow(j)
  }

  ghost predicate GoodRow(j: Job) {
    j.id != "" && j.name != "" && (IsRunning(j) ==> j.pid != 0)
  }

  ghost predicate GoodRows(rows: seq<Job>) {
    Keyed(rows) && forall row :: row in rows ==> GoodRow(row)
  }

  /** Rows are determined by their id, and among the running ones by their name. */
  ghost predicate Keyed(jobs: seq<Job>) {
    && (forall a, b :: a in jobs && b in jobs && a.id == b.id ==> a == b)
    && (forall a, b :: a in jobs && b in jobs && IsRunning(a) && IsRunning(b) && a.name == b.name ==> a == b)
  }

  ghost predicate DistinctIds(jobs: seq<Job>) {
    forall i, k :: 0 <= i < k < |jobs| ==> jobs[i].id != jobs[k].id
  }

  ghost predicate Good(jobs: seq<Job>) {
    && DistinctIds(jobs)
    && Keyed(jobs)
    && (forall j :: j in jobs ==> GoodJob(j))
  }

  /** The job stays as it is, or leaves `running` for good. */
  ghost predicate KeptOrClosed(j: Job, j': Job) {
    || j' == j
    || (IsRunning(j) && IsFinished(j')
        && j' == j.(status := j'.status, stopped := Some(true), exitCode := j'.exitCode))
  }

  lemma {:induction false} MapIn<S, T>(f: S -> T, s: seq<S>, y: T) returns (x: S)
    requires y in Map(f, s)
    ensures x in s && y == f(x)
  {
    var i :| 0 <= i < |s| && Map(f, s)[i] == y;
    x := s[i];
  }

  /** A pass that keeps or closes each job keeps the table good. */
  lemma ClosingKeepsGood(jobs: seq<Job>, f: Job -> Job)
    requires Good(jobs) && forall j :: j in jobs ==> KeptOrClosed(j, f(j))
    ensures Good(Map(f, jobs))
  {
    var after := Map(f, jobs);
    forall j | j in after ensures GoodJob(j) {
      var x := MapIn(f, jobs, j);
    }
    forall a, b | a in after && b in after
      ensures (a.id == b.id ==> a == b) && (IsRunning(a) && IsRunning(b) && a.name == b.name ==> a == b)
    {
      var x := MapIn(f, jobs, a);
      var y := MapIn(f, jobs, b);
    }
    forall i, k | 0 <= i < k < |after| ensures after[i].id != after[k].id {
      assert jobs[i] in jobs && jobs[k] in jobs;
    }
  }

  function Visit(j: Job, name: string, env: Env): Job {
    if j.name == name then Reaped(j, env) else j
  }

  /** Two running jobs at different places of a good table have different names. */
  lemma RunningNamesAreUnique(jobs: seq<Job>, i: nat, k: nat)
    requires Good(jobs) && i < k < |jobs| && IsRunning(jobs[i]) && IsRunning(jobs[k])
    ensures jobs[i].name != jobs[k].name
  {
    assert jobs[i] in jobs && jobs[k] in jobs;
  }

  /** In a good table the early exit of a start loses nothing: at most one job could block. */
  lemma StartPassVisitsAll(jobs: seq<Job>, name: string, env: Env)
    requires Good(jobs)
    ensures StartPass(jobs, name, env).0 == Map((j: Job) => Visit(j, name, env), jobs)
    ensures StartPass(jobs, name, env).1 <==> exists j :: j in jobs && Blocks(j, name, env)
  {
    var k := FirstBlock(jobs, name, env);
    forall i | 0 <= i < |jobs| && i > k ensures jobs[i].name == name ==> Reaped(jobs[i], env) == jobs[i] {
      if IsRunning(jobs[i]) && jobs[i].name == name {
        RunningNamesAreUnique(jobs, k, i);
      }
    }
    if k < |jobs| {
      assert jobs[k] in jobs;
    }
  }

  // ----- What a pass does, exactly

  /** Running, its process alive and still ours, and at most 900 seconds old. */
  ghost predicate MayStay(j: Job, env: Env) {
    IsRunning(j) && (j.pid, j.name) in env.live && env.now - j.t0 <= 900
  }

  /** How a running job ends: done when its process is gone, with the exit code of our own child; else timed out. */
  ghost function Ended(j: Job, env: Env): Job {
    if (j.pid, j.name) in env.live
    then j.(status := TimedOut, stopped := Some(true), exitCode := Some(-9))
    else j.(status := Done, stopped := Some(true),
            exitCode := if j.attached && j.pid in env.exits then Some(env.exits[j.pid]) else None)
  }

  /** A visited job runs on exactly when it may, and is then unchanged; else it has ended as it should. */
  ghost predicate Visited(j: Job, j': Job, env: Env) {
    && (IsRunning(j') <==> MayStay(j, env))
    && j' == if IsRunning(j) && !MayStay(j, env) then Ended(j, env) else j
  }

  ghost predicate AllVisited(before: seq<Job>, after: seq<Job>, env: Env) {
    |after| == |before| && forall k :: 0 <= k < |before| ==> Visited(before[k], after[k], env)
  }

  ghost predicate NameVisited(before: seq<Job>, after: seq<Job>, name: string, env: Env) {
    |after| == |before| && forall k :: 0 <= k < |before| ==>
      if before[k].name == name then Visited(before[k], after[k], env) else after[k] == before[k]
  }

  lemma ReapedIsVisited(j: Job, env: Env)
    requires GoodJob(j)
    ensures Visited(j, Reaped(j, env), env)
  {
  }

  /** A pass over a good table visits every job. */
  lemma PassVisitsAll(jobs: seq<Job>, env: Env)
    requires Good(jobs)
    ensures AllVisited(jobs, ReapedAll(jobs, env), env)
  {
    forall k | 0 <= k < |jobs| ensures Visited(jobs[k], ReapedAll(jobs, env)[k], env) {
      assert jobs[k] in jobs;
      ReapedIsVisited(jobs[k], env);
    }
  }

  /** The pass of a start visits every job of the name, and blocks exactly when one of them may stay. */
  lemma StartPassVisits(jobs: seq<Job>, name: string, env: Env)
    requires Good(jobs)
    ensures NameVisited(jobs, StartPass(jobs, name, env).0, name, env)
    ensures StartPass(jobs, name, env).1 <==> exists j :: j in jobs && j.name == name && MayStay(j, env)
  {
    StartPassVisitsAll(jobs, name, env);
    forall j | j in jobs ensures Visited(j, Reaped(j, env), env) {
      ReapedIsVisited(j, env);
    }
    var visit := (j: Job) => Visit(j, name, env);
    forall k | 0 <= k < |jobs|
      ensures var j' := StartPass(jobs, name, env).0[k];
        if jobs[k].name == name then Visited(jobs[k], j', env) else j' == jobs[k]
    {
      assert jobs[k] in jobs && Map(visit, jobs)[k] == visit(jobs[k]);
    }
  }

  /** What a start answers after its first section, for a good table. */
  lemma BeginAnswers(name: string, confirm: bool, env: Env, jobs: seq<Job>)
    requires Good(jobs)
    ensures var (r, after) := BeginSpec(name, confirm, env, jobs);
      && (r == NotConfirmed <==> !confirm)
      && (r == UnknownRun <==> confirm && name !in RUNS)
      && (r == AlreadyRunning
          <==> confirm && name in RUNS && exists j :: j in jobs && j.name == name && MayStay(j, env))
      && (if confirm && name in RUNS then NameVisited(jobs, after, name, env) else after == jobs)
  {
    StartPassVisits(jobs, name, env);
  }

  // ----- Persist, then reload

  /** What is kept: every running job, and the eight newest finished ones or all if there are fewer. */
  lemma KeptAre(jobs: seq<Job>)
    ensures forall j :: j in Kept(jobs) ==> j in jobs
    ensures forall j :: j in jobs && IsRunning(j) ==> j in Kept(jobs)
    ensures var done := |Filter(IsFinished, jobs)|;
      |Kept(jobs)| == |Filter(IsRunning, jobs)| + if done < 8 then done else 8
    ensures forall j, d ::
      (j in Kept(jobs) && IsFinished(j) && d in jobs && IsFinished(d) && d !in Kept(jobs)) ==> d.t0 <= j.t0
  {
    FilterIn(IsRunning, jobs);
    FilterIn(IsFinished, jobs);
    var done := SortDesc(StartTime, Filter(IsFinished, jobs));
    SortDescSorts(StartTime, Filter(IsFinished, jobs));
    forall j, d | j in Kept(jobs) && IsFinished(j) && d in jobs && IsFinished(d) && d !in Kept(jobs)
      ensures d.t0 <= j.t0
    {
      assert j in Take(done, KEPT_FINISHED);
      CutOfDescending(StartTime, done, KEPT_FINISHED, j, d);
    }
  }

  lemma PersistedIsGood(jobs: seq<Job>)
    requires Good(jobs)
    ensures GoodRows(Persisted(jobs))
  {
    KeptAre(jobs);
    var rows := Persisted(jobs);
    forall row | row in rows ensures GoodRow(row) {
      var j := MapIn(Slim, Kept(jobs), row);
      assert GoodJob(j);
    }
    forall a, b | a in rows && b in rows
      ensures (a.id == b.id ==> a == b) && (IsRunning(a) && IsRunning(b) && a.name == b.name ==> a == b)
    {
      var x := MapIn(Slim, Kept(jobs), a);
      var y := MapIn(Slim, Kept(jobs), b);
    }
  }

  /** The row that a loaded job was read from. */
  lemma {:induction false} LoadedFrom(rows: seq<Job>, env: Env, j: Job) returns (row: Job)
    requires j in Loaded(rows, [], env)
    ensures row in rows && j == Revived(row, env)
  {
    var init, last := rows[..|rows| - 1], rows[|rows| - 1];
    assert rows == init + [last];
    if j in Loaded(init, [], env) {
      row := LoadedFrom(init, env, j);
    } else {
      row := last;
    }
  }

  lemma {:induction false} LoadedAre(rows: seq<Job>, env: Env)
    requires GoodRows(rows)
    ensures forall row :: row in rows ==> Revived(row, env) in Loaded(rows, [], env)
    ensures forall i, k :: 0 <= i < k < |Loaded(rows, [], env)| ==>
      Loaded(rows, [], env)[i].id != Loaded(rows, [], env)[k].id
  {
    if rows != [] {
      var init, row := rows[..|rows| - 1], rows[|rows| - 1];
      assert rows == init + [row];
      assert GoodRow(row) && GoodRows(init);
      LoadedAre(init, env);
      var before := Loaded(init, [], env);
      if HasId(before, row.id) {
        var j :| j in before && j.id == row.id;
        var r := LoadedFrom(init, env, j);
        assert r in rows && r.id == row.id;
      }
    }
  }

  lemma LoadedIsGood(rows: seq<Job>, env: Env)
    requires GoodRows(rows)
    ensures Good(Loaded(rows, [], env))
  {
    LoadedAre(rows, env);
    var mem := Loaded(rows, [], env);
    forall j | j in mem ensures GoodJob(j) {
      var row := LoadedFrom(rows, env, j);
      assert GoodRow(row);
    }
    forall a, b | a in mem && b in mem
      ensures (a.id == b.id ==> a == b) && (IsRunning(a) && IsRunning(b) && a.name == b.name ==> a == b)
    {
      var x := LoadedFrom(rows, env, a);
      var y := LoadedFrom(rows, env, b);
      assert GoodRow(x) && GoodRow(y);
    }
  }

  /** A job read back from its row: a running one stays running exactly when its process is alive and ours,
      a missing start is now, and the child is no longer held. */
  ghost function Reloaded(j: Job, env: Env): Job {
    var status := if IsRunning(j) && (j.pid, j.name) !in env.live then Done else j.status;
    Job(j.id, j.name, j.pid, if j.t0 == 0 then env.now else j.t0, status, Some(status != Running), j.exitCode, false)
  }

  lemma RevivedIsReloaded(j: Job, env: Env)
    requires GoodJob(j)
    ensures Revived(Slim(j), env) == Reloaded(j, env)
  {
  }

  /** Persist then reload: exactly the kept jobs come back, each as its own row says. */
  lemma ReloadAfterPersist(jobs: seq<Job>, env: Env)
    requires Good(jobs)
    ensures var mem := Loaded(Persisted(jobs), [], env);
      && Good(mem)
      && (forall j :: j in Kept(jobs) ==> Reloaded(j, env) in mem)
      && (forall m :: m in mem ==> exists j :: j in Kept(jobs) && m == Reloaded(j, env))
  {
    PersistedIsGood(jobs);
    LoadedIsGood(Persisted(jobs), env);
    LoadedAre(Persisted(jobs), env);
    KeptAre(jobs);
    var mem := Loaded(Persisted(jobs), [], env);
    forall j | j in Kept(jobs) ensures Reloaded(j, env) in mem {
      var i :| 0 <= i < |Kept(jobs)| && Kept(jobs)[i] == j;
      assert Persisted(jobs)[i] == Slim(j);
      assert Slim(j) in Persisted(jobs);
      RevivedIsReloaded(j, env);
    }
    forall m | m in mem ensures exists j :: j in Kept(jobs) && m == Reloaded(j, env) {
      var row := LoadedFrom(Persisted(jobs), env, m);
      var j := MapIn(Slim, Kept(jobs), row);
      RevivedIsReloaded(j, env);
    }
  }

  /** A file of any rows, read into any table: the table stays in front, ids stay distinct, and the ids are
      those of the table and of the rows that have one. */
  lemma {:induction false} LoadExtends(rows: seq<Job>, jobs: seq<Job>, env: Env)
    requires DistinctIds(jobs)
    ensures jobs <= Loaded(rows, jobs, env) && DistinctIds(Loaded(rows, jobs, env))
    ensures forall id ::
      HasId(Loaded(rows, jobs, env), id) <==> HasId(jobs, id) || (id != "" && HasId(rows, id))
  {
    if rows != [] {
      var init, row := rows[..|rows| - 1], rows[|rows| - 1];
      assert rows == init + [row];
      LoadExtends(init, jobs, env);
      HasIdSnoc(init, row);
      HasIdSnoc(Loaded(init, jobs, env), Revived(row, env));
    }
  }

  /** What a row of the file says, with its defaults. */
  ghost function Reading(row: Job, env: Env): Job {
    var status := if IsRunning(row) && (row.pid == 0 || (row.pid, row.name) !in env.live) then Done else row.status;
    Job(row.id, if row.name == "" then "scan" else row.name, row.pid, if row.t0 == 0 then env.now else row.t0, status,
        Some(status != Running), row.exitCode, false)
  }

  ghost predicate FirstOfId(rows: seq<Job>, k: nat, id: string) {
    k < |rows| && rows[k].id == id && forall i :: 0 <= i < k ==> rows[i].id != id
  }

  lemma MemberHasId(jobs: seq<Job>, j: Job)
    requires j in jobs
    ensures HasId(jobs, j.id)
  {
  }

  /** A job that reading adds is what the first row of its id says. */
  lemma {:induction false} AddedJobsAre(rows: seq<Job>, jobs: seq<Job>, env: Env, j: Job)
    requires DistinctIds(jobs) && j in Loaded(rows, jobs, env) && !HasId(jobs, j.id)
    ensures exists k: nat :: FirstOfId(rows, k, j.id) && j == Reading(rows[k], env)
  {
    if j in jobs {
      MemberHasId(jobs, j);
    }
    var n := |rows| - 1;
    var init := rows[..n];
    LoadExtends(init, jobs, env);
    if j in Loaded(init, jobs, env) {
      AddedJobsAre(init, jobs, env, j);
      var k: nat :| FirstOfId(init, k, j.id) && j == Reading(init[k], env);
      assert rows[k] == init[k] && forall i :: 0 <= i < k ==> rows[i] == init[i];
      assert FirstOfId(rows, k, j.id);
    } else {
      assert j == Revived(rows[n], env) == Reading(rows[n], env);
      forall i | 0 <= i < n ensures rows[i].id != j.id {
        assert rows[i] == init[i] && init[i] in init;
      }
      assert FirstOfId(rows, n, j.id);
    }
  }

  lemma HasIdSnoc(jobs: seq<Job>, j: Job)
    ensures forall id :: HasId(jobs + [j], id) <==> HasId(jobs, id) || id == j.id
  {
    forall id | HasId(jobs, id) || id == j.id ensures HasId(jobs + [j], id) {
      if id == j.id {
        assert j in jobs + [j];
      } else {
        var x :| x in jobs && x.id == id;
        assert x in jobs + [j];
      }
    }
  }

  // ----- Runs

  /** The steps of the process and its restarts. A start is two steps, with anything between them.
      `List` is the pass of a job listing, which is not persisted. */
  datatype Action =
    | Begin(name: string, confirm: bool, env: Env)
    | Launch(name: string, id: string, pid: int, env: Env, written: bool)
    | List(env: Env)
    | Tick(env: Env, written: bool)
    | Restart(env: Env)

  /** Memory, the file, the names between the two steps of a start, and the ids that were ever seen finished. */
  datatype Sys = Sys(jobs: seq<Job>, disk: seq<Job>, starting: set<string>, left: set<string>)

  function FinishedIds(jobs: seq<Job>): set<string> {
    set j | j in jobs && IsFinished(j) :: j.id
  }

  /** The state without the count of finished ids. */
  function Stepped(s: Sys, a: Action): Sys {
    match a
    case Begin(name, confirm, env) =>
      var (r, jobs) := BeginSpec(name, confirm, env, s.jobs);
      s.(jobs := jobs, starting := if r == Proceed then s.starting + {name} else s.starting)
    case Launch(name, id, pid, env, written) =>
      var (started, jobs, disk) := LaunchSpec(name, id, pid, env, written, s.jobs, s.disk);
      s.(jobs := jobs, disk := disk, starting := s.starting - {name})
    case List(env) => s.(jobs := ReapedAll(s.jobs, env))
    case Tick(env, written) =>
      var jobs := ReapedAll(s.jobs, env);
      s.(jobs := jobs, disk := if written then Persisted(jobs) else s.disk)
    case Restart(env) => s.(jobs := Loaded(s.disk, [], env), starting := {})
  }

  function Apply(s: Sys, a: Action): Sys {
    var t := Stepped(s, a);
    t.(left := s.left + FinishedIds(t.jobs))
  }

  const EMPTY := Sys([], [], {}, {})

  function Run(actions: seq<Action>): Sys {
    if actions == [] then EMPTY else Apply(Run(actions[..|actions| - 1]), actions[|actions| - 1])
  }

  predicate IsNewId(s: Sys, id: string) {
    id != "" && !HasId(s.jobs, id) && !HasId(s.disk, id) && id !in s.left
  }

  /** Starts of one name do not overlap, a launch follows its begin, and its random id was never used. */
  predicate Enabled(s: Sys, a: Action) {
    && (a.Begin? ==> a.name !in s.starting)
    && (a.Launch? ==> a.name in s.starting && IsNewId(s, a.id))
  }

  ghost predicate Allowed(actions: seq<Action>) {
    actions == [] ||
    (Allowed(actions[..|actions| - 1]) && Enabled(Run(actions[..|actions| - 1]), actions[|actions| - 1]))
  }

  /** No job of the name is running. */
  ghost predicate Idle(jobs: seq<Job>, name: string) {
    forall j :: j in jobs && IsRunning(j) ==> j.name != name
  }

  ghost predicate SysInv(s: Sys) {
    && Good(s.jobs) && GoodRows(s.disk) && FinishedIds(s.jobs) <= s.left
    && forall name :: name in s.starting ==> name != "" && Idle(s.jobs, name)
  }

  lemma PassKeepsGood(jobs: seq<Job>, name: string, env: Env)
    requires Good(jobs)
    ensures Good(StartPass(jobs, name, env).0)
    ensures forall j :: j in StartPass(jobs, name, env).0 && IsRunning(j) ==> j in jobs
    ensures !StartPass(jobs, name, env).1 ==> Idle(StartPass(jobs, name, env).0, name)
  {
    var visit := (j: Job) => Visit(j, name, env);
    var passed := StartPass(jobs, name, env).0;
    StartPassVisitsAll(jobs, name, env);
    ClosingKeepsGood(jobs, visit);
    forall j | j in passed && IsRunning(j)
      ensures j in jobs && (j.name == name ==> StartPass(jobs, name, env).1)
    {
      var x := MapIn(visit, jobs, j);
      assert Blocks(x, name, env) ==> StartPass(jobs, name, env).1;
    }
  }

  lemma ReapKeepsGood(jobs: seq<Job>, env: Env)
    requires Good(jobs)
    ensures Good(ReapedAll(jobs, env))
    ensures forall j :: j in ReapedAll(jobs, env) && IsRunning(j) ==> j in jobs
  {
    ClosingKeepsGood(jobs, (j: Job) => Reaped(j, env));
    forall j | j in ReapedAll(jobs, env) && IsRunning(j) ensures j in jobs {
      var x := MapIn((i: Job) => Reaped(i, env), jobs, j);
    }
  }

  lemma AppendKeepsGood(jobs: seq<Job>, n: Job)
    requires Good(jobs) && GoodJob(n) && !HasId(jobs, n.id)
    requires forall j :: j in jobs && IsRunning(j) && IsRunning(n) ==> j.name != n.name
    ensures Good(jobs + [n])
  {
  }

  lemma LaunchKeepsGood(s: Sys, name: string, id: string, pid: int, env: Env, written: bool)
    requires SysInv(s) && name in s.starting && IsNewId(s, id)
    ensures SysInv(Apply(s, Launch(name, id, pid, env, written)))
  {
    if pid != 0 {
      AppendKeepsGood(s.jobs, NewJob(id, name, pid, env));
      PersistedIsGood(s.jobs + [NewJob(id, name, pid, env)]);
    }
  }

  lemma StepKeepsGood(s: Sys, a: Action)
    requires SysInv(s) && Enabled(s, a)
    ensures SysInv(Apply(s, a))
  {
    match a
    case Begin(name, confirm, env) =>
      PassKeepsGood(s.jobs, name, env);
    case Launch(name, id, pid, env, written) =>
      LaunchKeepsGood(s, name, id, pid, env, written);
    case List(env) =>
      ReapKeepsGood(s.jobs, env);
    case Tick(env, written) =>
      ReapKeepsGood(s.jobs, env);
      PersistedIsGood(ReapedAll(s.jobs, env));
    case Restart(env) =>
      LoadedIsGood(s.disk, env);
  }

  /** Over every run, whatever happens between the two steps of a start: `stopped` holds exactly when a job is
      not running, ids are distinct, and one name never has two running jobs. */
  lemma {:induction false} EveryRunIsGood(actions: seq<Action>)
    requires Allowed(actions)
    ensures SysInv(Run(actions))
  {
    if actions != [] {
      EveryRunIsGood(actions[..|actions| - 1]);
      StepKeepsGood(Run(actions[..|actions| - 1]), actions[|actions| - 1]);
    }
  }

  /** No job that was ever seen finished is running. */
  ghost predicate NoReturn(s: Sys) {
    forall j :: j in s.jobs && IsRunning(j) ==> j.id !in s.left
  }

  lemma RunningIsOld(s: Sys, a: Action, j: Job)
    requires SysInv(s) && Enabled(s, a) && !a.Restart? && j in Apply(s, a).jobs && IsRunning(j)
    ensures j in s.jobs || (a.Launch? && j.id == a.id)
  {
    match a
    case Begin(name, confirm, env) => PassKeepsGood(s.jobs, name, env);
    case Launch(name, id, pid, env, written) =>
    case List(env) => ReapKeepsGood(s.jobs, env);
    case Tick(env, written) => ReapKeepsGood(s.jobs, env);
  }

  lemma RunningIsNotFinished(jobs: seq<Job>, j: Job)
    requires Good(jobs) && j in jobs && IsRunning(j)
    ensures j.id !in FinishedIds(jobs)
  {
  }

  /** Inside one process a job never returns to `running`. */
  lemma StepsNeverReturn(s: Sys, a: Action)
    requires SysInv(s) && Enabled(s, a) && NoReturn(s) && !a.Restart?
    ensures NoReturn(Apply(s, a))
  {
    StepKeepsGood(s, a);
    forall j | j in Apply(s, a).jobs && IsRunning(j) ensures j.id !in Apply(s, a).left {
      RunningIsOld(s, a, j);
      RunningIsNotFinished(Apply(s, a).jobs, j);
    }
  }

  /** A row that still says `running` for a job that has finished, whose process is seen alive and ours. */
  ghost predicate Stale(s: Sys, env: Env, row: Job) {
    row in s.disk && IsRunning(row) && row.id in s.left && Alive(env, row.pid, row.name)
  }

  /** A restart brings a finished job back exactly when the file holds a stale row. */
  lemma RestartReturnsIffStale(s: Sys, env: Env)
    requires SysInv(s)
    ensures NoReturn(Apply(s, Restart(env))) <==> forall row :: !Stale(s, env, row)
  {
    var t := Apply(s, Restart(env));
    LoadedAre(s.disk, env);
    LoadedIsGood(s.disk, env);
    if row :| Stale(s, env, row) {
      var j := Revived(row, env);
      assert j in t.jobs && IsRunning(j) && j.id in t.left;
    } else {
      forall j | j in t.jobs && IsRunning(j) ensures j.id !in t.left {
        var row := LoadedFrom(s.disk, env, j);
        assert !Stale(s, env, row);
        RunningIsNotFinished(t.jobs, j);
      }
    }
  }

  /** A tick that reaches the disk leaves no stale row, whatever the processes do. */
  lemma WrittenTickLeavesNothingStale(s: Sys, env: Env, later: Env)
    requires SysInv(s) && NoReturn(s)
    ensures forall row :: !Stale(Apply(s, Tick(env, true)), later, row)
  {
    var t := Apply(s, Tick(env, true));
    StepsNeverReturn(s, Tick(env, true));
    KeptAre(t.jobs);
    forall row ensures !Stale(t, later, row) {
      if row in t.disk && IsRunning(row) {
        var j := MapIn(Slim, Kept(t.jobs), row);
        assert j in t.jobs && IsRunning(j);
      }
    }
  }

  ghost predicate SafeRestarts(actions: seq<Action>) {
    actions == [] ||
    (SafeRestarts(actions[..|actions| - 1]) &&
     var s, a := Run(actions[..|actions| - 1]), actions[|actions| - 1];
     a.Restart? ==> forall row :: !Stale(s, a.env, row))
  }

  /** Over every run whose restarts find no stale row, a job leaves `running` at most once and never returns. */
  lemma {:induction false} JobsNeverReturn(actions: seq<Action>)
    requires Allowed(actions) && SafeRestarts(actions)
    ensures NoReturn(Run(actions))
  {
    if actions != [] {
      var init, a := actions[..|actions| - 1], actions[|actions| - 1];
      JobsNeverReturn(init);
      EveryRunIsGood(init);
      if a.Restart? {
        RestartReturnsIffStale(Run(init), a.env);
      } else {
        StepsNeverReturn(Run(init), a);
      }
    }
  }

  /** At no point of the run is a job that was seen finished running again. */
  ghost predicate NeverReturns(actions: seq<Action>) {
    forall k: nat :: k <= |actions| ==> NoReturn(Run(actions[..k]))
  }

  lemma NeverReturnsSnoc(init: seq<Action>, a: Action)
    ensures NeverReturns(init + [a]) <==> NeverReturns(init) && NoReturn(Run(init + [a]))
  {
    var actions := init + [a];
    assert forall k: nat :: k <= |init| ==> actions[..k] == init[..k];
    Whole(actions);
  }

  /** Exactly the runs whose restarts find no stale row: no job of them ever returns. */
  lemma {:induction false} JobsNeverReturnIff(actions: seq<Action>)
    requires Allowed(actions)
    ensures NeverReturns(actions) <==> SafeRestarts(actions)
  {
    if actions != [] {
      var init, a := actions[..|actions| - 1], actions[|actions| - 1];
      assert actions == init + [a];
      JobsNeverReturnIff(init);
      NeverReturnsSnoc(init, a);
      EveryRunIsGood(init);
      if SafeRestarts(actions) {
        JobsNeverReturn(actions);
      } else if a.Restart? {
        RestartReturnsIffStale(Run(init), a.env);
      }
    }
  }

  // ----- How long a job runs

  /** The step visits the job and finds that it may not stay. */
  ghost predicate Closes(a: Action, j: Job) {
    match a
    case List(env) => !MayStay(j, env)
    case Tick(env, _) => !MayStay(j, env)
    case Begin(name, confirm, env) => confirm && name in RUNS && name == j.name && !MayStay(j, env)
    case _ => false
  }

  lemma VisitedIn(before: seq<Job>, after: seq<Job>, j: Job, env: Env)
    requires AllVisited(before, after, env) && j in before
    ensures (if IsRunning(j) && !MayStay(j, env) then Ended(j, env) else j) in after
  {
    var k :| 0 <= k < |before| && before[k] == j;
    assert Visited(before[k], after[k], env);
  }

  lemma NameVisitedIn(before: seq<Job>, after: seq<Job>, name: string, j: Job, env: Env)
    requires NameVisited(before, after, name, env) && j in before
    ensures (if j.name == name && IsRunning(j) && !MayStay(j, env) then Ended(j, env) else j) in after
  {
    var k :| 0 <= k < |before| && before[k] == j;
    assert j.name == name ==> Visited(before[k], after[k], env);
  }

  /** One step inside a process: a running job runs on, or ends as the step's world says; an ended one stays. */
  lemma StepMoves(s: Sys, a: Action, j: Job)
    requires SysInv(s) && Enabled(s, a) && !a.Restart? && j in s.jobs
    ensures (if IsRunning(j) && Closes(a, j) then Ended(j, a.env) else j) in Apply(s, a).jobs
  {
    match a
    case Begin(name, confirm, env) =>
      StartPassVisits(s.jobs, name, env);
      NameVisitedIn(s.jobs, StartPass(s.jobs, name, env).0, name, j, env);
    case Launch(name, id, pid, env, written) =>
    case List(env) =>
      PassVisitsAll(s.jobs, env);
      VisitedIn(s.jobs, ReapedAll(s.jobs, env), j, env);
    case Tick(env, written) =>
      PassVisitsAll(s.jobs, env);
      VisitedIn(s.jobs, ReapedAll(s.jobs, env), j, env);
  }

  ghost predicate FirstCloses(later: seq<Action>, k: nat, j: Job) {
    k < |later| && Closes(later[k], j) && forall i :: 0 <= i < k ==> !Closes(later[i], j)
  }

  ghost predicate NoRestart(later: seq<Action>) {
    forall k :: 0 <= k < |later| ==> !later[k].Restart?
  }

  lemma AllowedSnoc(before: seq<Action>, init: seq<Action>, a: Action)
    requires Allowed(before + (init + [a]))
    ensures Allowed(before + init) && Enabled(Run(before + init), a)
    ensures Run(before + (init + [a])) == Apply(Run(before + init), a)
  {
    Associate(before, init, [a]);
    RunSnoc(before + init, a);
  }

  lemma RunMoves(before: seq<Action>, init: seq<Action>, a: Action, j: Job)
    requires Allowed(before + (init + [a])) && !a.Restart? && j in Run(before + init).jobs
    ensures (if IsRunning(j) && Closes(a, j) then Ended(j, a.env) else j) in Run(before + (init + [a])).jobs
  {
    AllowedSnoc(before, init, a);
    EveryRunIsGood(before + init);
    StepMoves(Run(before + init), a, j);
  }

  lemma {:induction false} RunStays(before: seq<Action>, later: seq<Action>, j: Job)
    requires Allowed(before + later) && NoRestart(later) && j in Run(before).jobs && IsRunning(j)
    requires forall k :: 0 <= k < |later| ==> !Closes(later[k], j)
    ensures j in Run(before + later).jobs
  {
    if later == [] {
      assert before + later == before;
    } else {
      var init, a := later[..|later| - 1], later[|later| - 1];
      assert later == init + [a];
      AllowedSnoc(before, init, a);
      RunStays(before, init, j);
      RunMoves(before, init, a, j);
    }
  }

  lemma {:induction false} RunEnds(before: seq<Action>, later: seq<Action>, j: Job, k: nat)
    requires Allowed(before + later) && NoRestart(later) && j in Run(before).jobs && IsRunning(j)
    requires FirstCloses(later, k, j)
    ensures Ended(j, later[k].env) in Run(before + later).jobs
  {
    var init, a := later[..|later| - 1], later[|later| - 1];
    assert later == init + [a];
    AllowedSnoc(before, init, a);
    if k < |init| {
      assert FirstCloses(init, k, j);
      RunEnds(before, init, j, k);
      RunMoves(before, init, a, Ended(j, later[k].env));
    } else {
      RunStays(before, init, j);
      RunMoves(before, init, a, j);
    }
  }

  lemma {:induction false} FirstClosing(later: seq<Action>, j: Job, m: nat) returns (k: nat)
    requires m < |later| && Closes(later[m], j)
    ensures FirstCloses(later, k, j)
  {
    if i: nat :| i < m && Closes(later[i], j) {
      k := FirstClosing(later, j, i);
    } else {
      k := m;
    }
  }

  /** Inside one process a running job stays exactly as it is until the first step that visits it and finds its
      process gone, not ours or too old; that step ends it, as its world says, for good. */
  lemma RunsUntilClosed(before: seq<Action>, later: seq<Action>, j: Job)
    requires Allowed(before + later) && NoRestart(later) && j in Run(before).jobs && IsRunning(j)
    ensures j in Run(before + later).jobs <==> forall k :: 0 <= k < |later| ==> !Closes(later[k], j)
    ensures forall k: nat :: FirstCloses(later, k, j) ==> Ended(j, later[k].env) in Run(before + later).jobs
  {
    forall k: nat | FirstCloses(later, k, j) ensures Ended(j, later[k].env) in Run(before + later).jobs {
      RunEnds(before, later, j, k);
    }
    EveryRunIsGood(before + later);
    if m :| 0 <= m < |later| && Closes(later[m], j) {
      var k := FirstClosing(later, j, m);
      assert Ended(j, later[k].env) in Run(before + later).jobs && Ended(j, later[k].env).id == j.id;
    } else {
      RunStays(before, later, j);
    }
  }

  /** The same for a job from its launch on. */
  lemma LaunchedRunsUntilClosed(before: seq<Action>, name: string, id: string, pid: int, env: Env, written: bool,
                                later: seq<Action>)
    requires pid != 0 && NoRestart(later)
    requires Allowed(before + [Launch(name, id, pid, env, written)] + later)
    ensures var j := Job(id, name, pid, env.now, Running, None, None, true);
      j in Run(before + [Launch(name, id, pid, env, written)] + later).jobs
      <==> forall k :: 0 <= k < |later| ==> !Closes(later[k], j)
  {
    var a := Launch(name, id, pid, env, written);
    var j := Job(id, name, pid, env.now, Running, None, None, true);
    RunSnoc(before, a);
    assert Run(before + [a]).jobs == Run(before).jobs + [j];
    RunsUntilClosed(before + [a], later, j);
  }

  lemma RunSnoc(actions: seq<Action>, a: Action)
    ensures Run(actions + [a]) == Apply(Run(actions), a)
    ensures Allowed(actions + [a]) <==> Allowed(actions) && Enabled(Run(actions), a)
  {
  }

  /** The window: a job that a listing times out, whose process survives the kill, is running again
      when the process restarts before the next tick. */
  lemma ResurrectionExample() returns (actions: seq<Action>)
    ensures Allowed(actions) && !NoReturn(Run(actions))
  {
    var alive := {(7, "scan")};
    var at := (now: int) => Env(now, alive, map[]);
    var job := NewJob("j1", "scan", 7, at(1));
    var begin, launch := Begin("scan", true, at(1)), Launch("scan", "j1", 7, at(1), true);
    var list, restart := List(at(1000)), Restart(at(1001));
    RunSnoc([], begin);
    RunSnoc([] + [begin], launch);
    RunSnoc([] + [begin] + [launch], list);
    RunSnoc([] + [begin] + [launch] + [list], restart);
    actions := [] + [begin] + [launch] + [list] + [restart];
    FirstBegin("scan", at(1));
    FirstLaunch(launch, job);
    OneTimeout(job, at(1000));
    var s := Run([] + [begin] + [launch] + [list]);
    assert s.jobs == [Closed(job, TimedOut, Some(-9))] && s.jobs[0] in s.jobs;
    assert s.disk == [Slim(job)] && s.disk[0] in s.disk;
    EveryRunIsGood([] + [begin] + [launch] + [list]);
    assert Stale(s, at(1001), Slim(job));
    RestartReturnsIffStale(s, at(1001));
  }

  lemma OneRow(job: Job)
    requires IsRunning(job)
    ensures Persisted([job]) == [Slim(job)]
  {
    var none: seq<Job> := [];
    FilterSnoc(IsRunning, none, job);
    FilterSnoc(IsFinished, none, job);
    assert none + [job] == [job];
    assert Kept([job]) == [job];
  }

  lemma FirstBegin(name: string, env: Env)
    requires name in RUNS
    ensures Apply(EMPTY, Begin(name, true, env)) == EMPTY.(starting := {name})
  {
    var none: seq<Job> := [];
    assert StartPass(none, name, env).0 == none;
  }

  lemma FirstLaunch(a: Action, job: Job)
    requires a.Launch? && a.written && a.pid != 0 && job == NewJob(a.id, a.name, a.pid, a.env)
    ensures Apply(EMPTY.(starting := {a.name}), a) == Sys([job], [Slim(job)], {}, {})
  {
    assert [] + [job] == [job];
    OneRow(job);
    assert FinishedIds([job]) == {};
  }

  lemma OneTimeout(job: Job, env: Env)
    requires IsRunning(job) && Alive(env, job.pid, job.name) && env.now - job.t0 > JOB_TTL_S
    ensures ReapedAll([job], env) == [Closed(job, TimedOut, Some(-9))]
  {
  }
}
