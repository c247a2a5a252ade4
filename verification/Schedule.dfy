/** What running functions with dependencies may do, as the log of their starts and ends, and what is left
    unstarted when nothing can happen any more. */
module Schedule {
  /** A function to run, known by its name. */
  datatype Job = Job(name: string)

  type Deps = map<Job, set<Job>>

  datatype Event = Start(job: Job) | Finish(job: Job, ok: bool)

  ghost predicate Closed(deps: Deps) {
    forall f | f in deps :: deps[f] <= deps.Keys
  }

  ghost function Started(log: seq<Event>): set<Job> {
    if log == [] then {}
    else Started(log[..|log| - 1]) + match log[|log| - 1] case Start(f) => {f} case Finish(_, _) => {}
  }

  ghost function Succeeded(log: seq<Event>): set<Job> {
    if log == [] then {}
    else match log[|log| - 1]
      case Start(_) => Succeeded(log[..|log| - 1])
      case Finish(f, ok) => Succeeded(log[..|log| - 1]) + if ok then {f} else {}
  }

  ghost function Failed(log: seq<Event>): set<Job> {
    if log == [] then {}
    else match log[|log| - 1]
      case Start(_) => Failed(log[..|log| - 1])
      case Finish(f, ok) => Failed(log[..|log| - 1]) + if ok then {} else {f}
  }

  ghost function Running(log: seq<Event>): set<Job> {
    if log == [] then {}
    else match log[|log| - 1]
      case Start(f) => Running(log[..|log| - 1]) + {f}
      case Finish(f, _) => Running(log[..|log| - 1]) - {f}
  }

  /** A job starts once, after all its dependencies have succeeded and below the limit; what ends was running. */
  ghost predicate Allowed(deps: Deps, limit: int, log: seq<Event>, e: Event) {
    match e
    case Start(f) => f in deps && f !in Started(log) && deps[f] <= Succeeded(log) && |Running(log)| < limit
    case Finish(f, _) => f in Running(log)
  }

  ghost predicate Safe(deps: Deps, limit: int, log: seq<Event>) {
    log == [] || (Safe(deps, limit, log[..|log| - 1]) && Allowed(deps, limit, log[..|log| - 1], log[|log| - 1]))
  }

  lemma LogGrows(log: seq<Event>, e: Event)
    ensures Started(log + [e]) == Started(log) + if e.Start? then {e.job} else {}
    ensures Succeeded(log + [e]) == Succeeded(log) + if e.Finish? && e.ok then {e.job} else {}
    ensures Failed(log + [e]) == Failed(log) + if e.Finish? && !e.ok then {e.job} else {}
    ensures Running(log + [e]) == if e.Start? then Running(log) + {e.job} else Running(log) - {e.job}
  {
    assert (log + [e])[..|log|] == log;
  }

  lemma SafeGrows(deps: Deps, limit: int, log: seq<Event>, e: Event)
    ensures Safe(deps, limit, log + [e]) == (Safe(deps, limit, log) && Allowed(deps, limit, log, e))
  {
    assert (log + [e])[..|log|] == log;
  }

  /** Every started job had its dependencies done. */
  ghost predicate AllServed(deps: Deps, started: set<Job>, succeeded: set<Job>) {
    forall f | f in started :: f in deps && deps[f] <= succeeded
  }

  /** What runs is what was started and has not ended; what ended was started and ended one way. */
  ghost predicate Accounted(deps: Deps, started: set<Job>, succeeded: set<Job>, failed: set<Job>, running: set<Job>) {
    && started <= deps.Keys && running == started - succeeded - failed
    && succeeded <= started && failed <= started && succeeded !! failed
    && AllServed(deps, started, succeeded)
  }

  lemma StartAccounted(deps: Deps, started: set<Job>, succeeded: set<Job>, failed: set<Job>, running: set<Job>, f: Job)
    requires Accounted(deps, started, succeeded, failed, running)
    requires f in deps && f !in started && deps[f] <= succeeded
    ensures Accounted(deps, started + {f}, succeeded, failed, running + {f})
  {
  }

  lemma SuccessAccounted(deps: Deps, started: set<Job>, succeeded: set<Job>, failed: set<Job>, running: set<Job>,
                         f: Job)
    requires Accounted(deps, started, succeeded, failed, running) && f in running
    ensures Accounted(deps, started, succeeded + {f}, failed, running - {f})
  {
  }

  lemma FailureAccounted(deps: Deps, started: set<Job>, succeeded: set<Job>, failed: set<Job>, running: set<Job>,
                         f: Job)
    requires Accounted(deps, started, succeeded, failed, running) && f in running
    ensures Accounted(deps, started, succeeded, failed + {f}, running - {f})
  {
  }

  lemma {:induction false} SafeFacts(deps: Deps, limit: int, log: seq<Event>)
    requires Safe(deps, limit, log)
    ensures Started(log) <= deps.Keys && Running(log) == Started(log) - Succeeded(log) - Failed(log)
    ensures Succeeded(log) <= Started(log) && Failed(log) <= Started(log) && Succeeded(log) !! Failed(log)
    ensures AllServed(deps, Started(log), Succeeded(log))
  {
    if log != [] {
      var front, e := log[..|log| - 1], log[|log| - 1];
      SafeFacts(deps, limit, front);
      var started, succeeded, failed, running := Started(front), Succeeded(front), Failed(front), Running(front);
      assert succeeded + {} == succeeded && failed + {} == failed && started + {} == started;
      match e {
        case Start(f) => StartAccounted(deps, started, succeeded, failed, running, f);
        case Finish(f, ok) =>
          if ok {
            SuccessAccounted(deps, started, succeeded, failed, running, f);
          } else {
            FailureAccounted(deps, started, succeeded, failed, running, f);
          }
      }
      assert Accounted(deps, Started(log), Succeeded(log), Failed(log), Running(log));
    }
  }

  lemma LogStarts(deps: Deps, limit: int, log: seq<Event>, f: Job)
    requires Safe(deps, limit, log) && f !in Started(log)
    ensures var log' := log + [Start(f)];
            Started(log') == Started(log) + {f} && Succeeded(log') == Succeeded(log) && Failed(log') == Failed(log)
            && Running(log') == Running(log) + {f}
  {
    LogGrows(log, Start(f));
    SafeFacts(deps, limit, log);
  }

  lemma LogSucceeds(log: seq<Event>, f: Job)
    requires f in Running(log)
    ensures var log' := log + [Finish(f, true)];
            Started(log') == Started(log) && Succeeded(log') == Succeeded(log) + {f} && Failed(log') == Failed(log)
            && Running(log') == Running(log) - {f}
  {
    LogGrows(log, Finish(f, true));
  }

  lemma LogFails(log: seq<Event>, f: Job)
    requires f in Running(log)
    ensures var log' := log + [Finish(f, false)];
            Started(log') == Started(log) && Succeeded(log') == Succeeded(log) && Failed(log') == Failed(log) + {f}
            && Running(log') == Running(log) - {f}
  {
    LogGrows(log, Finish(f, false));
  }

  // ----- chains of dependencies -----

  ghost predicate Chain(deps: Deps, p: seq<Job>) {
    && p != [] && (forall i | 0 <= i < |p| :: p[i] in deps)
    && forall i | 0 <= i < |p| - 1 :: p[i + 1] in deps[p[i]]
  }

  ghost predicate Distinct(p: seq<Job>) {
    forall i, j | 0 <= i < j < |p| :: p[i] != p[j]
  }

  /** Along its dependencies the job reaches a failed one, or a job met before. */
  ghost predicate Blocked(deps: Deps, failed: set<Job>, f: Job) {
    exists p :: BlockedBy(deps, failed, f, p)
  }

  ghost predicate BlockedBy(deps: Deps, failed: set<Job>, f: Job, p: seq<Job>) {
    && Chain(deps, p) && |p| >= 2 && p[0] == f
    && (p[|p| - 1] in failed || p[|p| - 1] in p[..|p| - 1])
  }

  ghost predicate Cyclic(deps: Deps) {
    exists p :: Cycle(deps, p)
  }

  ghost predicate Cycle(deps: Deps, p: seq<Job>) {
    Chain(deps, p) && |p| >= 2 && p[0] == p[|p| - 1]
  }

  lemma ChainTail(deps: Deps, p: seq<Job>, i: nat)
    requires Chain(deps, p) && i < |p|
    ensures Chain(deps, p[i..])
  {
  }

  lemma ChainGrows(deps: Deps, p: seq<Job>, d: Job)
    requires Closed(deps) && Chain(deps, p) && d in deps[p[|p| - 1]]
    ensures Chain(deps, p + [d]) && (p + [d])[..|p|] == p
  {
    assert deps[p[|p| - 1]] <= deps.Keys;
  }

  lemma DistinctGrows(p: seq<Job>, d: Job)
    requires Distinct(p) && d !in p
    ensures Distinct(p + [d])
  {
  }

  /** A chain that starts with a job and goes on into jobs that were there before it. */
  lemma DistinctFromTail(p: seq<Job>, earlier: set<Job>)
    requires p != [] && Distinct(p[1..]) && p[0] !in earlier && forall i | 1 <= i < |p| :: p[i] in earlier
    ensures Distinct(p)
  {
    forall i, j | 0 <= i < j < |p| ensures p[i] != p[j] {
      assert i > 0 ==> p[1..][i - 1] != p[1..][j - 1];
    }
  }

  /** Below a started job, every job has succeeded and none comes twice. */
  lemma {:induction false} StartedIsFree(deps: Deps, limit: int, log: seq<Event>, p: seq<Job>)
    requires Safe(deps, limit, log) && Chain(deps, p) && p[0] in Started(log)
    ensures forall i | 1 <= i < |p| :: p[i] in Succeeded(log)
    ensures Distinct(p)
    decreases |log|
  {
    var front, e := log[..|log| - 1], log[|log| - 1];
    assert log == front + [e];
    LogGrows(front, e);
    SafeFacts(deps, limit, front);
    if p[0] in Started(front) {
      StartedIsFree(deps, limit, front, p);
    } else if |p| > 1 {
      var tail := p[1..];
      ChainTail(deps, p, 1);
      assert p[0 + 1] in deps[p[0]];
      StartedIsFree(deps, limit, front, tail);
      forall i | 1 <= i < |p| ensures p[i] in Succeeded(front) {
        assert p[i] == tail[i - 1];
      }
      DistinctFromTail(p, Started(front));
    }
  }

  /** At every moment of an allowed log, what came before is allowed and the limit on running jobs is kept. */
  lemma {:induction false} SafeAtEveryMoment(deps: Deps, limit: nat, log: seq<Event>, i: nat)
    requires Safe(deps, limit, log) && i <= |log|
    ensures Safe(deps, limit, log[..i]) && |Running(log[..i])| <= limit
    decreases |log|
  {
    if i < |log| {
      assert log[..|log| - 1][..i] == log[..i];
      SafeAtEveryMoment(deps, limit, log[..|log| - 1], i);
    } else if log != [] {
      var front, e := log[..|log| - 1], log[|log| - 1];
      assert log[..i] == log == front + [e] && front[..|front|] == front;
      SafeAtEveryMoment(deps, limit, front, |front|);
      LogGrows(front, e);
    }
  }

  /** As many run as may, or no unstarted job has all its dependencies done. */
  ghost predicate Busy(deps: Deps, limit: int, log: seq<Event>) {
    |Running(log)| == limit || forall f | f in deps && f !in Started(log) :: !(deps[f] <= Succeeded(log))
  }

  /** Whenever a job ended, nothing more could have been started before. */
  ghost predicate Eager(deps: Deps, limit: int, log: seq<Event>) {
    || log == []
    || (Eager(deps, limit, log[..|log| - 1]) && (log[|log| - 1].Finish? ==> Busy(deps, limit, log[..|log| - 1])))
  }

  lemma EagerGrows(deps: Deps, limit: int, log: seq<Event>, e: Event)
    ensures Eager(deps, limit, log + [e]) <==> Eager(deps, limit, log) && (e.Finish? ==> Busy(deps, limit, log))
  {
    assert (log + [e])[..|log|] == log;
  }

  lemma {:induction false} EagerStarts(deps: Deps, limit: int, log: seq<Event>, n: nat)
    requires n <= |log| && Eager(deps, limit, log[..n]) && forall i | n <= i < |log| :: log[i].Start?
    ensures Eager(deps, limit, log)
    decreases |log|
  {
    if n < |log| {
      assert log[..|log| - 1][..n] == log[..n];
      EagerStarts(deps, limit, log[..|log| - 1], n);
    } else {
      assert log[..n] == log;
    }
  }

  /** At every end of a job in an eager log, nothing more could have been started. */
  lemma {:induction false} EagerAtEveryEnd(deps: Deps, limit: int, log: seq<Event>, i: nat)
    requires Eager(deps, limit, log) && i < |log| && log[i].Finish?
    ensures Busy(deps, limit, log[..i])
    decreases |log|
  {
    if i < |log| - 1 {
      assert log[..|log| - 1][..i] == log[..i];
      EagerAtEveryEnd(deps, limit, log[..|log| - 1], i);
    }
  }

  /** Nothing runs and nothing is ready. */
  ghost predicate Finished(deps: Deps, log: seq<Event>) {
    && Running(log) == {}
    && forall f | f in deps && f !in Started(log) :: !(deps[f] <= Succeeded(log))
  }

  lemma StartedNotBlocked(deps: Deps, limit: int, log: seq<Event>, f: Job)
    requires Safe(deps, limit, log) && f in Started(log)
    ensures !Blocked(deps, Failed(log), f)
  {
    forall p | Chain(deps, p) && |p| >= 2 && p[0] == f ensures !BlockedBy(deps, Failed(log), f, p) {
      StartedIsFree(deps, limit, log, p);
      SafeFacts(deps, limit, log);
    }
  }

  lemma DistinctFits(p: seq<Job>, s: set<Job>)
    requires Distinct(p) && forall i | 0 <= i < |p| :: p[i] in s
    ensures |p| <= |s|
  {
    if p != [] {
      DistinctFits(p[..|p| - 1], s - {p[|p| - 1]});
    }
  }

  /** An unstarted job has a dependency that failed or was not started either. */
  lemma Obstacle(deps: Deps, limit: int, log: seq<Event>, f: Job) returns (d: Job)
    requires Closed(deps) && Safe(deps, limit, log) && Finished(deps, log)
    requires f in deps && f !in Started(log)
    ensures d in deps && d in deps[f] && (d in Failed(log) || d !in Started(log))
  {
    d :| d in deps[f] && d !in Succeeded(log);
    SafeFacts(deps, limit, log);
    assert d !in Running(log);
  }

  ghost predicate Unstarted(p: seq<Job>, log: seq<Event>) {
    forall i | 0 <= i < |p| :: p[i] !in Started(log)
  }

  /** From an unstarted job, following such dependencies comes to a failed job or comes back. */
  lemma {:induction false} UnstartedWalk(deps: Deps, limit: int, log: seq<Event>, p: seq<Job>)
    requires Closed(deps) && Safe(deps, limit, log) && Finished(deps, log)
    requires Chain(deps, p) && Distinct(p) && Unstarted(p, log)
    ensures Blocked(deps, Failed(log), p[0])
    decreases |deps.Keys| - |p|
  {
    var d := Obstacle(deps, limit, log, p[|p| - 1]);
    var q := p + [d];
    ChainGrows(deps, p, d);
    if d in Failed(log) || d in p {
      assert BlockedBy(deps, Failed(log), p[0], q);
    } else {
      DistinctGrows(p, d);
      DistinctFits(q, deps.Keys);
      UnstartedWalk(deps, limit, log, q);
    }
  }

  /** When nothing can happen any more, the jobs never started are exactly those from which a failed job or a
      cycle of dependencies is reachable. */
  lemma UnstartedIffBlocked(deps: Deps, limit: int, log: seq<Event>, f: Job)
    requires Closed(deps) && Safe(deps, limit, log) && Finished(deps, log) && f in deps
    ensures f !in Started(log) <==> Blocked(deps, Failed(log), f)
  {
    if f in Started(log) {
      StartedNotBlocked(deps, limit, log, f);
    } else {
      UnstartedWalk(deps, limit, log, [f]);
    }
  }

  /** Without failures, something is left unstarted exactly when the dependencies are cyclic. */
  lemma DeadlockIffCyclic(deps: Deps, limit: int, log: seq<Event>)
    requires Closed(deps) && Safe(deps, limit, log) && Finished(deps, log) && Failed(log) == {}
    ensures Started(log) != deps.Keys <==> Cyclic(deps)
  {
    SafeFacts(deps, limit, log);
    if Started(log) != deps.Keys {
      var f :| f in deps && f !in Started(log);
      UnstartedIffBlocked(deps, limit, log, f);
      var p :| BlockedBy(deps, Failed(log), f, p);
      var i :| 0 <= i < |p| - 1 && p[i] == p[|p| - 1];
      ChainTail(deps, p, i);
      assert Cycle(deps, p[i..]);
    }
    if p :| Cycle(deps, p) {
      assert p[..|p| - 1][0] == p[0];
      assert BlockedBy(deps, Failed(log), p[0], p);
      UnstartedIffBlocked(deps, limit, log, p[0]);
    }
  }
}
