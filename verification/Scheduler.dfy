/** The scheduler: jobs whose dependencies have succeeded run as processes, at most `maxProcs` at a time, and
    end in any order and with any status. */
module Scheduler {
  import opened Options
  import opened Schedule

  datatype Error = JobFailed(job: Job) | Deadlock

  datatype Outcome = Completed | ParallelError(errors: seq<Error>) | NoChildProcesses

  ghost predicate NoDuplicates(s: seq<Job>) {
    forall i, j | 0 <= i < j < |s| :: s[i] != s[j]
  }

  /** `ds` lists, once each, the jobs that depend on `d`. */
  ghost predicate DependentsOf(ds: seq<Job>, deps: Deps, d: Job) {
    NoDuplicates(ds) && forall f :: f in ds <==> f in deps && d in deps[f]
  }

  ghost predicate Inverts(dependents: map<Job, seq<Job>>, deps: Deps) {
    dependents.Keys == deps.Keys && forall d | d in dependents :: DependentsOf(dependents[d], deps, d)
  }

  /** The same while the lists are being built: `done` are the pairs entered so far. */
  ghost predicate InvertsPairs(dependents: map<Job, seq<Job>>, done: set<(Job, Job)>) {
    && (forall d | d in dependents :: NoDuplicates(dependents[d]))
    && forall d, f | d in dependents :: f in dependents[d] <==> (d, f) in done
  }

  lemma PairEntered(dependents: map<Job, seq<Job>>, done: set<(Job, Job)>, d: Job, f: Job)
    requires d in dependents && (d, f) !in done && InvertsPairs(dependents, done)
    ensures InvertsPairs(dependents[d := dependents[d] + [f]], done + {(d, f)})
  {
    assert f !in dependents[d];
    var after := dependents[d := dependents[d] + [f]];
    forall e, g | e in after ensures g in after[e] <==> (e, g) in done + {(d, f)} {
      assert e != d ==> after[e] == dependents[e];
    }
  }

  method EnterDependent(dependents: map<Job, seq<Job>>, fn: Job, deps: set<Job>, ghost done: set<(Job, Job)>)
    returns (r: map<Job, seq<Job>>)
    requires InvertsPairs(dependents, done) && deps <= dependents.Keys
    requires forall d | d in deps :: (d, fn) !in done
    ensures r.Keys == dependents.Keys && InvertsPairs(r, done + set d | d in deps :: (d, fn))
  {
    r := dependents;
    var rest := deps;
    ghost var entered: set<(Job, Job)> := {};
    assert done + entered == done;
    while rest != {}
      invariant rest <= deps && r.Keys == dependents.Keys
      invariant entered == set d | d in deps - rest :: (d, fn)
      invariant InvertsPairs(r, done + entered)
      decreases rest
    {
      var dep :| dep in rest;
      PairEntered(r, done + entered, dep, fn);
      r := r[dep := r[dep] + [fn]];
      assert done + entered + {(dep, fn)} == done + (entered + {(dep, fn)});
      rest, entered := rest - {dep}, entered + {(dep, fn)};
    }
    assert deps - rest == deps;
  }

  ghost function Pairs(functions: Deps, jobs: set<Job>): set<(Job, Job)>
    requires jobs <= functions.Keys
  {
    set f, d | f in jobs && d in functions[f] :: (d, f)
  }

  method BuildDependents(functions: Deps) returns (dependents: map<Job, seq<Job>>)
    requires Closed(functions)
    ensures Inverts(dependents, functions)
  {
    dependents := map f | f in functions :: [];
    var rest := functions.Keys;
    ghost var done: set<Job> := {};
    while rest != {}
      invariant done !! rest && done + rest == functions.Keys && dependents.Keys == functions.Keys
      invariant InvertsPairs(dependents, Pairs(functions, done))
      decreases rest
    {
      var fn :| fn in rest;
      dependents := EnterDependent(dependents, fn, functions[fn], Pairs(functions, done));
      assert Pairs(functions, done) + (set d | d in functions[fn] :: (d, fn)) == Pairs(functions, done + {fn});
      rest, done := rest - {fn}, done + {fn};
    }
    forall d | d in dependents ensures DependentsOf(dependents[d], functions, d) {
      assert forall f :: (d, f) in Pairs(functions, functions.Keys) <==> f in functions && d in functions[f];
    }
  }

  // ----- process numbers -----

  datatype Pid = Pid(number: nat)

  /** There is always a process number not in use. */
  lemma FreshPid(pids: set<Pid>) returns (unused: Pid)
    ensures unused !in pids
  {
    var n: nat := 0;
    var rest := pids;
    while rest != {}
      invariant rest <= pids && forall q | q in pids - rest :: q.number < n
      decreases rest
    {
      var q :| q in rest;
      rest := rest - {q};
      if n <= q.number {
        n := q.number + 1;
      }
    }
    unused := Pid(n);
  }

  // ----- the state as values -----

  /** Which processes there are: one for each running job. */
  ghost predicate Processes(pidMap: map<Pid, Job>, running: set<Job>) {
    pidMap.Values == running && |pidMap| == |running|
  }

  lemma ValuesFewer(m: map<Pid, Job>)
    ensures |m.Values| <= |m|
  {
    if m != map[] {
      var p :| p in m;
      var rest := m - {p};
      assert m == rest[p := m[p]];
      ValuesFewer(rest);
      assert m.Values == rest.Values + {m[p]};
    }
  }

  lemma ProcessAdded(pidMap: map<Pid, Job>, running: set<Job>, pid: Pid, f: Job)
    requires Processes(pidMap, running) && pid !in pidMap && f !in running
    ensures Processes(pidMap[pid := f], running + {f})
    ensures |pidMap[pid := f]| == |pidMap| + 1
  {
    var after := pidMap[pid := f];
    assert after.Keys == pidMap.Keys + {pid};
    forall g ensures g in after.Values <==> g in running + {f} {
      if g in running {
        var p :| p in pidMap && pidMap[p] == g;
        assert after[p] == g;
      }
      assert after[pid] == f;
    }
  }

  lemma ProcessRemoved(pidMap: map<Pid, Job>, running: set<Job>, pid: Pid)
    requires Processes(pidMap, running) && pid in pidMap
    ensures Processes(pidMap - {pid}, running - {pidMap[pid]})
    ensures |pidMap - {pid}| == |pidMap| - 1
  {
    var f, after := pidMap[pid], pidMap - {pid};
    assert pidMap == after[pid := f];
    ValuesFewer(after);
    forall g ensures g in after.Values <==> g in running && g != f {
      if g in running && g != f {
        var p :| p in pidMap && pidMap[p] == g;
        assert after[p] == g;
      } else if g in after.Values {
        var p :| p in after && after[p] == g;
        assert pidMap[p] == g;
        if g == f {
          assert after.Values == running by { SameValues(pidMap, pid, p); }
          assert false;
        }
      }
    }
  }

  lemma SameValues(m: map<Pid, Job>, p: Pid, q: Pid)
    requires p in m && q in m && p != q && m[p] == m[q]
    ensures (m - {p}).Values == m.Values
  {
    var rest := m - {p};
    assert m == rest[p := m[q]] && rest[q] == m[q];
    assert m.Values == rest.Values + {m[q]};
    assert m[q] in rest.Values;
  }

  /** The log is allowed, what has been started is gone from `functions` and of the others exactly the dependencies
      that have not succeeded are left, and there is one process for each running job. */
  ghost predicate Consistent(deps: Deps, limit: int, functions: Deps, pidMap: map<Pid, Job>, log: seq<Event>) {
    && Safe(deps, limit, log)
    && functions == Remaining(deps, Started(log), Succeeded(log)) && Processes(pidMap, Running(log))
  }

  /** The unstarted jobs, each with the dependencies that have not succeeded. */
  ghost function Remaining(deps: Deps, started: set<Job>, succeeded: set<Job>): Deps {
    map g | g in deps && g !in started :: deps[g] - succeeded
  }

  lemma RemainingWithout(deps: Deps, started: set<Job>, succeeded: set<Job>, f: Job)
    ensures Remaining(deps, started + {f}, succeeded) == Remaining(deps, started, succeeded) - {f}
  {
  }

  lemma KeyRemoved(functions: Deps, f: Job)
    requires f in functions
    ensures |functions - {f}| == |functions| - 1
    ensures forall g | g in functions && g != f :: (functions - {f})[g] == functions[g]
    ensures (functions - {f}).Keys == functions.Keys - {f}
  {
    assert functions == (functions - {f})[f := functions[f]];
  }

  lemma StartStep(deps: Deps, limit: int, functions: Deps, pidMap: map<Pid, Job>, log: seq<Event>, f: Job, pid: Pid)
    requires Consistent(deps, limit, functions, pidMap, log)
    requires f in functions && functions[f] == {} && |pidMap| < limit && pid !in pidMap
    ensures Consistent(deps, limit, functions - {f}, pidMap[pid := f], log + [Start(f)])
    ensures Failed(log + [Start(f)]) == Failed(log)
  {
    assert deps[f] <= Succeeded(log) by {
      assert deps[f] - Succeeded(log) == {};
    }
    LogStarts(deps, limit, log, f);
    SafeFacts(deps, limit, log);
    assert f !in Running(log);
    ProcessAdded(pidMap, Running(log), pid, f);
    RemainingWithout(deps, Started(log), Succeeded(log), f);
    SafeGrows(deps, limit, log, Start(f));
  }

  /** The jobs ready to run are those not started that have nothing left to wait for. */
  ghost predicate ReadyIsExact(ready: seq<Job>, functions: Deps) {
    NoDuplicates(ready) && Elements(ready) == Unhindered(functions)
  }

  ghost function Elements(s: seq<Job>): set<Job> {
    set f | f in s
  }

  ghost function Unhindered(functions: Deps): set<Job> {
    set f | f in functions && functions[f] == {}
  }

  lemma ReadyPopped(ready: seq<Job>, functions: Deps)
    requires ready != [] && ReadyIsExact(ready, functions)
    ensures ReadyIsExact(ready[..|ready| - 1], functions - {ready[|ready| - 1]})
  {
    var f, rest := ready[|ready| - 1], ready[..|ready| - 1];
    assert ready == rest + [f];
    assert f !in rest;
    assert Elements(ready) == Elements(rest) + {f};
    assert Unhindered(functions - {f}) == Unhindered(functions) - {f};
  }

  lemma StartLast(deps: Deps, limit: int, functions: Deps, pidMap: map<Pid, Job>, log: seq<Event>, ready: seq<Job>,
                  f: Job, pid: Pid)
    requires Consistent(deps, limit, functions, pidMap, log) && ReadyIsExact(ready, functions)
    requires ready != [] && f == ready[|ready| - 1] && |pidMap| < limit && pid !in pidMap
    ensures f in functions
    ensures Consistent(deps, limit, functions - {f}, pidMap[pid := f], log + [Start(f)])
    ensures ReadyIsExact(ready[..|ready| - 1], functions - {f})
    ensures Failed(log + [Start(f)]) == Failed(log)
    ensures |functions - {f}| == |functions| - 1 && |pidMap[pid := f]| == |pidMap| + 1
  {
    assert f in Elements(ready);
    StartStep(deps, limit, functions, pidMap, log, f, pid);
    ReadyPopped(ready, functions);
    KeyRemoved(functions, f);
  }

  // ----- the end of a process -----

  /** While the dependents of `f` are gone through, those in `waiting` still wait for it. */
  ghost predicate Completing(deps: Deps, succeeded: set<Job>, functions: Deps, f: Job, waiting: seq<Job>) {
    forall g | g in functions :: g in deps && functions[g] == deps[g] - succeeded + if g in waiting then {f} else {}
  }

  /** A running job ends: its process is gone. */
  lemma FinishStep(deps: Deps, limit: int, functions: Deps, pidMap: map<Pid, Job>, log: seq<Event>, pid: Pid, ok: bool)
    requires Consistent(deps, limit, functions, pidMap, log) && pid in pidMap
    ensures pidMap[pid] in Running(log) && pidMap[pid] in deps
    ensures Safe(deps, limit, log + [Finish(pidMap[pid], ok)])
    ensures Processes(pidMap - {pid}, Running(log) - {pidMap[pid]}) && |pidMap - {pid}| == |pidMap| - 1
  {
    assert pidMap[pid] in pidMap.Values;
    SafeGrows(deps, limit, log, Finish(pidMap[pid], ok));
    SafeFacts(deps, limit, log);
    ProcessRemoved(pidMap, Running(log), pid);
  }

  lemma FailureKeepsWaiting(deps: Deps, limit: int, functions: Deps, pidMap: map<Pid, Job>, log: seq<Event>, pid: Pid,
                            pidMap': map<Pid, Job>, log': seq<Event>)
    requires Consistent(deps, limit, functions, pidMap, log) && pid in pidMap
    requires pidMap' == pidMap - {pid} && log' == log + [Finish(pidMap[pid], false)]
    ensures Consistent(deps, limit, functions, pidMap', log')
    ensures |pidMap'| == |pidMap| - 1 && Failed(log') == Failed(log) + {pidMap[pid]}
  {
    FinishStep(deps, limit, functions, pidMap, log, pid, false);
    LogFails(log, pidMap[pid]);
  }

  /** When `f` succeeds, what still counts it are its dependents, all of them unstarted. */
  lemma SuccessReleases(deps: Deps, started: set<Job>, succeeded: set<Job>, f: Job, ds: seq<Job>)
    requires DependentsOf(ds, deps, f) && f !in succeeded && AllServed(deps, started, succeeded)
    ensures Completing(deps, succeeded + {f}, Remaining(deps, started, succeeded), f, ds)
    ensures AllKeys(ds, Remaining(deps, started, succeeded))
  {
    var functions := Remaining(deps, started, succeeded);
    forall g | g in functions
      ensures functions[g] == deps[g] - (succeeded + {f}) + if g in ds then {f} else {}
    {
      assert g in ds <==> f in deps[g];
    }
  }

  ghost predicate AllKeys(ds: seq<Job>, functions: Deps) {
    forall g | g in ds :: g in functions
  }

  lemma AllReleased(deps: Deps, started: set<Job>, succeeded: set<Job>, functions: Deps, f: Job)
    requires functions.Keys == deps.Keys - started && Completing(deps, succeeded, functions, f, [])
    ensures functions == Remaining(deps, started, succeeded)
  {
    var none: seq<Job> := [];
    forall g | g in functions ensures functions[g] == deps[g] - succeeded {
      assert g !in none;
    }
  }

  lemma SuccessBegins(deps: Deps, limit: int, functions: Deps, pidMap: map<Pid, Job>, log: seq<Event>, pid: Pid,
                      pidMap': map<Pid, Job>, ds: seq<Job>) returns (log': seq<Event>, succeeded': set<Job>)
    requires Consistent(deps, limit, functions, pidMap, log) && pid in pidMap && DependentsOf(ds, deps, pidMap[pid])
    requires pidMap' == pidMap - {pid}
    ensures log' == log + [Finish(pidMap[pid], true)] && succeeded' == Succeeded(log') && pidMap[pid] in succeeded'
    ensures Completing(deps, succeeded', functions, pidMap[pid], ds) && AllKeys(ds, functions)
    ensures Failed(log') == Failed(log) && |pidMap'| == |pidMap| - 1
    ensures Ending(deps, limit, functions.Keys, pidMap', log')
  {
    var f := pidMap[pid];
    log' := log + [Finish(f, true)];
    succeeded' := Succeeded(log');
    FinishStep(deps, limit, functions, pidMap, log, pid, true);
    LogSucceeds(log, f);
    SafeFacts(deps, limit, log);
    SuccessReleases(deps, Started(log), Succeeded(log), f, ds);
  }

  /** What holds of a state once a success is logged, but for what the unstarted jobs wait for. */
  ghost predicate Ending(deps: Deps, limit: int, unstarted: set<Job>, pidMap: map<Pid, Job>, log: seq<Event>) {
    Safe(deps, limit, log) && unstarted == deps.Keys - Started(log) && Processes(pidMap, Running(log))
  }

  lemma SuccessEnds(deps: Deps, limit: int, functions: Deps, pidMap: map<Pid, Job>, log: seq<Event>, f: Job,
                    succeeded: set<Job>, unstarted: set<Job>)
    requires Ending(deps, limit, unstarted, pidMap, log) && unstarted == functions.Keys && succeeded == Succeeded(log)
    requires Completing(deps, succeeded, functions, f, [])
    ensures Consistent(deps, limit, functions, pidMap, log)
  {
    AllReleased(deps, Started(log), Succeeded(log), functions, f);
  }

  lemma DependentReleased(deps: Deps, succeeded: set<Job>, functions: Deps, f: Job, waiting: seq<Job>, ready: seq<Job>)
    requires waiting != [] && NoDuplicates(waiting) && Completing(deps, succeeded, functions, f, waiting)
    requires AllKeys(waiting, functions) && f in succeeded && ReadyIsExact(ready, functions)
    ensures waiting[0] in functions
    ensures var g := waiting[0]; var left := functions[g] - {f};
      && f in functions[g]
      && AllKeys(waiting[1..], functions[g := left])
      && Completing(deps, succeeded, functions[g := left], f, waiting[1..])
      && ReadyIsExact(if left == {} then ready + [g] else ready, functions[g := left])
    ensures NoDuplicates(waiting[1..])
  {
    var g := waiting[0];
    var left := functions[g] - {f};
    assert forall x :: x in waiting <==> x == g || x in waiting[1..];
    assert g !in waiting[1..];
    assert f in functions[g] && g !in Unhindered(functions);
    assert g in ready ==> g in Elements(ready);
    assert Elements(ready + [g]) == Elements(ready) + {g};
    assert Unhindered(functions[g := left]) == Unhindered(functions) + if left == {} then {g} else {};
  }

  // ----- what a round adds to the log -----

  /** Only starts have been added. */
  ghost predicate Began(before: seq<Event>, log: seq<Event>) {
    before <= log && forall i | |before| <= i < |log| :: log[i].Start?
  }

  lemma BusyNow(deps: Deps, limit: int, functions: Deps, pidMap: map<Pid, Job>, log: seq<Event>, ready: seq<Job>)
    requires Consistent(deps, limit, functions, pidMap, log) && ReadyIsExact(ready, functions)
    requires limit >= 1 && (ready == [] || |pidMap| >= limit)
    ensures Busy(deps, limit, log)
  {
    SafeAtEveryMoment(deps, limit, log, |log|);
    assert log[..|log|] == log;
    NothingReady(ready, functions);
    if ready == [] {
      forall f | f in deps && f !in Started(log) ensures !(deps[f] <= Succeeded(log)) {
        assert f in functions && f !in Unhindered(functions);
      }
    }
  }

  /** The failed jobs in the order in which they ended. */
  function Reported(log: seq<Event>): seq<Error> {
    if log == [] then []
    else
      var front, last := Reported(log[..|log| - 1]), log[|log| - 1];
      if last.Finish? && !last.ok then front + [JobFailed(last.job)] else front
  }

  lemma ReportedGrows(log: seq<Event>, e: Event)
    ensures Reported(log + [e]) == Reported(log) + if e.Finish? && !e.ok then [JobFailed(e.job)] else []
  {
    assert (log + [e])[..|log|] == log;
  }

  lemma {:induction false} StartsReportNothing(before: seq<Event>, log: seq<Event>)
    requires Began(before, log)
    ensures Reported(log) == Reported(before)
    decreases |log|
  {
    if |before| < |log| {
      StartsReportNothing(before, log[..|log| - 1]);
    } else {
      assert before == log;
    }
  }

  /** A round of the loop: jobs begin, then one ends. */
  lemma RoundIsEager(deps: Deps, limit: int, before: seq<Event>, begun: seq<Event>, e: Event)
    requires Eager(deps, limit, before) && Began(before, begun) && Busy(deps, limit, begun) && e.Finish?
    ensures Eager(deps, limit, begun + [e])
    ensures Reported(begun + [e]) == Reported(before) + if e.ok then [] else [JobFailed(e.job)]
  {
    assert begun[..|before|] == before;
    EagerStarts(deps, limit, begun, |before|);
    EagerGrows(deps, limit, begun, e);
    StartsReportNothing(before, begun);
    ReportedGrows(begun, e);
  }

  // ----- the scheduler -----

  class ParallelExecute {
    var functions: Deps
    const dependents: map<Job, seq<Job>>
    const maxProcs: int
    var pidMap: map<Pid, Job>
    var readyToRun: seq<Job>
    ghost const deps: Deps
    ghost var log: seq<Event>

    ghost predicate Valid()
      reads this
    {
      Consistent(deps, maxProcs, functions, pidMap, log) && ReadyIsExact(readyToRun, functions)
    }

    ghost predicate Wired() {
      Closed(deps) && Inverts(dependents, deps)
    }

    constructor (functions: Deps, maxSimultaneousProcs: int)
      requires Closed(functions)
      ensures Wired() && deps == functions && maxProcs == maxSimultaneousProcs
      ensures this.functions == functions && pidMap == map[] && readyToRun == [] && log == []
    {
      var inverse := BuildDependents(functions);
      this.functions, deps, dependents, maxProcs := functions, functions, inverse, maxSimultaneousProcs;
      pidMap, readyToRun, log := map[], [], [];
    }

    method CollectReady()
      requires readyToRun == []
      modifies this`readyToRun
      ensures ReadyIsExact(readyToRun, functions)
    {
      var rest := functions.Keys;
      while rest != {}
        invariant rest <= functions.Keys && NoDuplicates(readyToRun)
        invariant forall f :: f in readyToRun <==> f in functions && f !in rest && functions[f] == {}
        decreases rest
      {
        var fn :| fn in rest;
        rest := rest - {fn};
        if functions[fn] == {} {
          readyToRun := readyToRun + [fn];
        }
      }
    }

    /** The last ready job is forked as a process, which gets any number not in use. */
    method RunLastReady()
      requires Valid() && readyToRun != [] && |pidMap| < maxProcs
      modifies this`functions, this`pidMap, this`log, this`readyToRun
      ensures Valid() && Failed(log) == Failed(old(log))
      ensures log == old(log) + [Start(old(readyToRun)[|old(readyToRun)| - 1])]
      ensures readyToRun == old(readyToRun)[..|old(readyToRun)| - 1]
      ensures |functions| == |old(functions)| - 1 && |pidMap| == |old(pidMap)| + 1
    {
      var f := readyToRun[|readyToRun| - 1];
      ghost var unused := FreshPid(pidMap.Keys);
      assert unused !in pidMap;
      var pid :| pid !in pidMap;
      StartLast(deps, maxProcs, functions, pidMap, log, readyToRun, f, pid);
      readyToRun := readyToRun[..|readyToRun| - 1];
      functions := functions - {f};
      pidMap := pidMap[pid := f];
      log := log + [Start(f)];
    }

    /** As many ready jobs as the limit allows are started: then the limit is reached or nothing is ready. */
    method StartReady()
      requires Valid()
      modifies this`functions, this`pidMap, this`log, this`readyToRun
      ensures Valid() && Failed(log) == Failed(old(log)) && Began(old(log), log)
      ensures maxProcs >= 1 ==> Busy(deps, maxProcs, log)
      ensures |functions| + |pidMap| == |old(functions)| + |old(pidMap)| && |pidMap| >= |old(pidMap)|
      ensures maxProcs >= 1 && (|old(pidMap)| > 0 || old(readyToRun) != []) ==> |pidMap| > 0
      ensures maxProcs < 1 ==> |pidMap| == |old(pidMap)| && readyToRun == old(readyToRun) && log == old(log)
    {
      var maxAllowed := maxProcs - |pidMap|;
      var maxAble := |readyToRun|;
      var count := if maxAllowed < maxAble then maxAllowed else maxAble;
      var i := 0;
      while i < count
        invariant Valid() && Failed(log) == Failed(old(log)) && Began(old(log), log)
        invariant i == 0 || i <= count
        invariant |readyToRun| == maxAble - i && |pidMap| == |old(pidMap)| + i
        invariant |functions| + |pidMap| == |old(functions)| + |old(pidMap)|
        invariant i == 0 ==> readyToRun == old(readyToRun) && log == old(log)
      {
        RunLastReady();
        i := i + 1;
      }
      if maxProcs >= 1 {
        BusyNow(deps, maxProcs, functions, pidMap, log, readyToRun);
      }
    }

    /** A job that succeeded is taken off what its dependents wait for; those left with nothing become ready. */
    method Release(f: Job, ghost succeeded: set<Job>)
      requires f in dependents && f in succeeded && NoDuplicates(dependents[f])
      requires Completing(deps, succeeded, functions, f, dependents[f])
      requires ReadyIsExact(readyToRun, functions) && AllKeys(dependents[f], functions)
      modifies this`functions, this`readyToRun
      ensures Completing(deps, succeeded, functions, f, []) && ReadyIsExact(readyToRun, functions)
      ensures functions.Keys == old(functions).Keys && |functions| == |old(functions)|
    {
      var ds := dependents[f];
      while ds != []
        invariant functions.Keys == old(functions).Keys && |functions| == |old(functions)|
        invariant Completing(deps, succeeded, functions, f, ds) && ReadyIsExact(readyToRun, functions)
        invariant NoDuplicates(ds) && AllKeys(ds, functions)
        decreases |ds|
      {
        var g := ds[0];
        DependentReleased(deps, succeeded, functions, f, ds, readyToRun);
        var left := functions[g] - {f};
        functions := functions[g := left];
        if left == {} {
          readyToRun := readyToRun + [g];
        }
        ds := ds[1..];
      }
    }

    method Succeed(pid: Pid)
      requires Valid() && pid in pidMap
      requires pidMap[pid] in dependents && DependentsOf(dependents[pidMap[pid]], deps, pidMap[pid])
      modifies this`functions, this`pidMap, this`log, this`readyToRun
      ensures Valid() && |functions| == |old(functions)| && |pidMap| == |old(pidMap)| - 1
      ensures Failed(log) == Failed(old(log)) && log == old(log) + [Finish(old(pidMap)[pid], true)]
    {
      var f := pidMap[pid];
      var pidMap' := pidMap - {pid};
      ghost var log', succeeded' := SuccessBegins(deps, maxProcs, functions, pidMap, log, pid, pidMap', dependents[f]);
      ghost var unstarted := functions.Keys;
      pidMap := pidMap';
      log := log';
      Release(f, succeeded');
      SuccessEnds(deps, maxProcs, functions, pidMap, log, f, succeeded', unstarted);
    }

    method Fail(pid: Pid)
      requires Valid() && pid in pidMap
      modifies this`pidMap, this`log
      ensures Valid() && |pidMap| == |old(pidMap)| - 1
      ensures Failed(log) == Failed(old(log)) + {old(pidMap)[pid]}
      ensures log == old(log) + [Finish(old(pidMap)[pid], false)]
    {
      ghost var log' := log + [Finish(pidMap[pid], false)];
      var pidMap' := pidMap - {pid};
      FailureKeepsWaiting(deps, maxProcs, functions, pidMap, log, pid, pidMap', log');
      log := log';
      pidMap := pidMap';
    }

    method WaitForOne() returns (failed: Option<Job>, ghost ended: Job)
      requires Valid() && Wired() && pidMap != map[]
      modifies this`functions, this`pidMap, this`log, this`readyToRun
      ensures Valid() && |functions| == |old(functions)| && |pidMap| == |old(pidMap)| - 1
      ensures Failed(log) == (Failed(old(log)) + match failed case None => {} case Some(f) => {f})
      ensures log == old(log) + [Finish(ended, failed.None?)] && (failed.Some? ==> failed.value == ended)
    {
      var pid :| pid in pidMap;
      ended := pidMap[pid];
      var ok: bool := *;
      if ok {
        RunningIsKnown(deps, maxProcs, functions, pidMap, log, pid);
        Succeed(pid);
        failed := None;
      } else {
        failed := Some(pidMap[pid]);
        Fail(pid);
      }
    }

    /** Start what may start, wait for one process, release what waited for it; until nothing runs and nothing is
        ready. Processes end in any order and with any status, and this always comes to an end. */
    method RunAll() returns (noChild: bool, errors: seq<Error>)
      requires Wired() && Valid() && pidMap == map[] && log == []
      modifies this`functions, this`pidMap, this`log, this`readyToRun
      ensures Valid() && Reports(errors, Failed(log)) && errors == Reported(log)
      ensures Eager(deps, maxProcs, log) && (maxProcs < 1 ==> log == [])
      ensures noChild ==> maxProcs < 1 && old(readyToRun) != []
      ensures !noChild ==> pidMap == map[] && readyToRun == [] && (maxProcs < 1 ==> old(readyToRun) == [])
    {
      errors := [];
      while pidMap != map[] || readyToRun != []
        invariant Valid() && Reports(errors, Failed(log)) && errors == Reported(log) && Eager(deps, maxProcs, log)
        invariant maxProcs < 1 ==> pidMap == map[] && readyToRun == old(readyToRun) && log == []
        decreases 2 * |functions| + |pidMap|
      {
        ghost var before := log;
        StartReady();
        if pidMap == map[] {
          return true, errors;
        }
        ghost var begun := log;
        var failed, ended := WaitForOne();
        RoundIsEager(deps, maxProcs, before, begun, Finish(ended, failed.None?));
        if failed.Some? {
          ReportGrows(errors, Failed(begun), failed.value);
          errors := errors + [JobFailed(failed.value)];
        }
      }
      return false, errors;
    }

    method RunUntilCompletion() returns (outcome: Outcome)
      requires Wired() && functions == deps && pidMap == map[] && readyToRun == [] && log == []
      modifies this`functions, this`pidMap, this`log, this`readyToRun
      ensures Right(outcome, deps, maxProcs, log)
    {
      CollectReady();
      InitiallyConsistent(deps, maxProcs);
      NothingReady(readyToRun, functions);
      var noChild, errors := RunAll();
      if noChild {
        return NoChildProcesses;
      }
      Concludes(deps, maxProcs, functions, pidMap, log, readyToRun, errors);
      if functions != map[] && errors == [] {
        errors := errors + [Deadlock];
      }
      return if errors == [] then Completed else ParallelError(errors);
    }
  }

  lemma RunningIsKnown(deps: Deps, limit: int, functions: Deps, pidMap: map<Pid, Job>, log: seq<Event>, pid: Pid)
    requires Consistent(deps, limit, functions, pidMap, log) && pid in pidMap
    ensures pidMap[pid] in deps
  {
    SafeFacts(deps, limit, log);
    assert pidMap[pid] in pidMap.Values;
  }

  ghost predicate Reports(errors: seq<Error>, failed: set<Job>) {
    forall e :: e in errors <==> e.JobFailed? && e.job in failed
  }

  lemma ReportGrows(errors: seq<Error>, failed: set<Job>, f: Job)
    requires Reports(errors, failed)
    ensures Reports(errors + [JobFailed(f)], failed + {f})
  {
  }

  /** What the outcome of a run says. The log is allowed at every moment. Without a single process allowed and with
      something to run, waiting finds no child. Otherwise, at the end, the jobs never started are exactly those from
      which a failed job or a cycle is reachable; the errors name exactly the failed jobs, in the order in which they
      ended; and a deadlock is reported exactly when nothing failed and the dependencies are cyclic. Whenever a job
      ended, as many were running as may, or nothing more could have been started. */
  ghost predicate Right(outcome: Outcome, deps: Deps, limit: int, log: seq<Event>) {
    && RightLog(deps, limit, log)
    && (outcome.NoChildProcesses? <==> limit < 1 && Unhindered(deps) != {})
    && (outcome.NoChildProcesses? ==> log == [])
    && (!outcome.NoChildProcesses? ==> RightEnd(deps, log) && RightErrors(outcome, deps, log))
  }

  ghost predicate RightLog(deps: Deps, limit: int, log: seq<Event>) {
    Safe(deps, limit, log) && forall i | 0 <= i < |log| && log[i].Finish? :: Busy(deps, limit, log[..i])
  }

  ghost predicate RightEnd(deps: Deps, log: seq<Event>) {
    Finished(deps, log) && forall f | f in deps :: f !in Started(log) <==> Blocked(deps, Failed(log), f)
  }

  ghost predicate RightErrors(outcome: Outcome, deps: Deps, log: seq<Event>) {
    && (outcome.Completed? ==> Failed(log) == {} && !Cyclic(deps))
    && (outcome.ParallelError? ==>
         && (Failed(log) != {} || Cyclic(deps))
         && outcome.errors == (if Reported(log) == [] then [Deadlock] else Reported(log))
         && (forall f :: JobFailed(f) in outcome.errors <==> f in Failed(log))
         && (Deadlock in outcome.errors <==> Failed(log) == {} && Cyclic(deps)))
  }

  lemma Concludes(deps: Deps, limit: int, functions: Deps, pidMap: map<Pid, Job>, log: seq<Event>, ready: seq<Job>,
                  errors: seq<Error>)
    requires Closed(deps) && Consistent(deps, limit, functions, pidMap, log) && pidMap == map[]
    requires ReadyIsExact(ready, functions) && ready == [] && Reports(errors, Failed(log)) && errors == Reported(log)
    requires (limit < 1 ==> Unhindered(deps) == {}) && Eager(deps, limit, log)
    ensures var errors' := if functions != map[] && errors == [] then errors + [Deadlock] else errors;
            Right(if errors' == [] then Completed else ParallelError(errors'), deps, limit, log)
  {
    NothingReady(ready, functions);
    NothingLeft(deps, limit, functions, pidMap, log);
    EndIsRight(deps, limit, log);
    AlwaysBusy(deps, limit, log);
    ErrorsAreRight(deps, functions, log, errors);
  }

  lemma EndIsRight(deps: Deps, limit: int, log: seq<Event>)
    requires Closed(deps) && Safe(deps, limit, log) && Finished(deps, log)
    ensures RightEnd(deps, log)
  {
    forall f | f in deps ensures f !in Started(log) <==> Blocked(deps, Failed(log), f) {
      UnstartedIffBlocked(deps, limit, log, f);
    }
  }

  lemma ErrorsAreRight(deps: Deps, functions: Deps, log: seq<Event>, errors: seq<Error>)
    requires Reports(errors, Failed(log)) && errors == Reported(log)
    requires Failed(log) == {} ==> (functions != map[] <==> Cyclic(deps))
    ensures var errors' := if functions != map[] && errors == [] then errors + [Deadlock] else errors;
            RightErrors(if errors' == [] then Completed else ParallelError(errors'), deps, log)
  {
    NoReports(errors, Failed(log));
    assert errors == [] ==> errors + [Deadlock] == [Deadlock];
  }

  lemma AlwaysBusy(deps: Deps, limit: int, log: seq<Event>)
    requires Eager(deps, limit, log)
    ensures forall i | 0 <= i < |log| && log[i].Finish? :: Busy(deps, limit, log[..i])
  {
    forall i | 0 <= i < |log| && log[i].Finish? ensures Busy(deps, limit, log[..i]) {
      EagerAtEveryEnd(deps, limit, log, i);
    }
  }

  lemma NoReports(errors: seq<Error>, failed: set<Job>)
    requires Reports(errors, failed)
    ensures errors == [] <==> failed == {}
    ensures Deadlock !in errors && forall f :: JobFailed(f) in errors <==> f in failed
  {
    if errors != [] {
      assert errors[0] in errors;
    }
    forall f ensures JobFailed(f) in errors <==> f in failed {}
  }

  lemma InitiallyConsistent(deps: Deps, limit: int)
    ensures Consistent(deps, limit, deps, map[], [])
  {
    assert forall g | g in deps :: deps[g] - {} == deps[g];
    assert Remaining(deps, {}, {}) == deps;
  }

  lemma NothingReady(ready: seq<Job>, functions: Deps)
    requires ReadyIsExact(ready, functions)
    ensures ready == [] <==> Unhindered(functions) == {}
  {
    assert ready != [] ==> ready[0] in Elements(ready);
  }

  /** Nothing running and nothing ready: the log is finished. */
  lemma NothingLeft(deps: Deps, limit: int, functions: Deps, pidMap: map<Pid, Job>, log: seq<Event>)
    requires Closed(deps) && Consistent(deps, limit, functions, pidMap, log) && pidMap == map[]
    requires Unhindered(functions) == {}
    ensures Finished(deps, log)
    ensures Failed(log) == {} ==> (functions != map[] <==> Cyclic(deps))
  {
    assert Running(log) == {};
    forall f | f in deps && f !in Started(log) ensures !(deps[f] <= Succeeded(log)) {
      assert f in functions && f !in Unhindered(functions);
    }
    SafeFacts(deps, limit, log);
    if Failed(log) == {} {
      DeadlockIffCyclic(deps, limit, log);
      assert functions != map[] <==> functions.Keys != {};
    }
  }
}
