/** One claimed slot from its claim to its terminal write. */
module ProbeAttempt {
  import opened Wrappers
  import opened Scheduling
  import opened EndpointRuntimeRepository
  import opened ResultRecorder

  /** The load overran or failed, the probe threw, or there is an observation. */
  datatype Ending = NotLoaded | Threw | Observed(row: NewResult)

  /** Steps that leave this claim's probe running: everyone's but its own worker's end of it. */
  predicate LeavesRunning(a: Action, id: nat, c: Claim) {
    !(a.EndProbe? && a.id == id && a.claim == c) && !(a.Crash? && a.worker == c.worker)
  }

  ghost predicate IsRunning(s: State, id: nat, c: Claim) {
    id in s.monitors && c in s.monitors[id].probing
  }

  lemma {:induction false} StaysRunning(cfg: Config, s: State, steps: seq<Action>, id: nat, c: Claim)
    requires IsRunning(s, id, c) && forall a :: a in steps ==> LeavesRunning(a, id, c)
    ensures IsRunning(Run(cfg, s, steps), id, c)
  {
    if steps != [] {
      StaysRunning(cfg, s, steps[..|steps| - 1], id, c);
      StepStaysRunning(cfg, Run(cfg, s, steps[..|steps| - 1]), steps[|steps| - 1], id, c);
    }
  }

  lemma StepStaysRunning(cfg: Config, s: State, a: Action, id: nat, c: Claim)
    requires IsRunning(s, id, c) && LeavesRunning(a, id, c)
    ensures IsRunning(Step(cfg, s, a), id, c)
  {
  }

  /** The tables once the probe has ended, other sessions having acted meanwhile. */
  function AtEnd(cfg: Config, s: State, env: seq<Action>, id: nat, c: Claim): State {
    Step(cfg, Run(cfg, s, env), EndProbe(id, c))
  }

  lemma EndsOwnProbe(cfg: Config, s: State, env: seq<Action>, id: nat, c: Claim)
    requires Inv(cfg, s) && IsRunning(s, id, c) && forall a :: a in env ==> LeavesRunning(a, id, c)
    ensures Inv(cfg, AtEnd(cfg, s, env, id, c)) && Ended(AtEnd(cfg, s, env, id, c), id, c)
  {
    var mid := Run(cfg, s, env);
    StaysRunning(cfg, s, env, id, c);
    RunKeepsInv(cfg, s, env);
    OneStep(cfg, mid, EndProbe(id, c));
    RunKeepsInv(cfg, mid, [EndProbe(id, c)]);
    assert MonitorInv(cfg, mid.monitors[id]);
  }

  lemma OneStep(cfg: Config, s: State, a: Action)
    ensures Run(cfg, s, [a]) == Step(cfg, s, a)
  {
    assert [a][..0] == [];
  }

  /** Neither a result nor an observation time is added, and the next slot stays. */
  ghost predicate NothingObserved(m: Monitor, m': Monitor) {
    && m'.stored == m.stored && (m'.row.Some? <==> m.row.Some?)
    && (m.row.Some? ==> m'.row.value.lastProbeAt == m.row.value.lastProbeAt
                        && m'.row.value.nextRunAt == m.row.value.nextRunAt)
  }

  lemma AbandonIsNoObservation(cfg: Config, s: State, id: nat, c: Claim)
    requires id in s.monitors
    ensures id in Step(cfg, s, Action.Abandon(id, c)).monitors
    ensures NothingObserved(s.monitors[id], Step(cfg, s, Action.Abandon(id, c)).monitors[id])
  {
  }

  /** The probe runs to its end, other sessions acting meanwhile. */
  method EndOwnProbe(repo: Repository, id: nat, c: Claim, env: seq<Action>)
    requires Inv(repo.cfg, repo.View()) && IsRunning(repo.View(), id, c)
    requires forall a :: a in env ==> LeavesRunning(a, id, c)
    modifies repo
    ensures repo.View() == AtEnd(repo.cfg, old(repo.View()), env, id, c)
    ensures Inv(repo.cfg, repo.View()) && Ended(repo.View(), id, c)
  {
    EndsOwnProbe(repo.cfg, repo.View(), env, id, c);
    repo.Interleave(env);
    OneStep(repo.cfg, repo.View(), EndProbe(id, c));
    repo.Interleave([EndProbe(id, c)]);
  }

  /** Nothing was observed: the slot is abandoned, or the write that does it fails. */
  method GiveUp(repo: Repository, id: nat, c: Claim, gap: seq<Action>, abandons: bool)
    requires Inv(repo.cfg, repo.View()) && Ended(repo.View(), id, c)
    modifies repo
    ensures var s := Run(repo.cfg, old(repo.View()), gap);
            && repo.View() == (if abandons then Step(repo.cfg, s, Action.Abandon(id, c)) else s)
            && id in s.monitors && id in repo.monitors && NothingObserved(s.monitors[id], repo.monitors[id])
  {
    EndedStaysEnded(repo.cfg, repo.View(), gap, id, c);
    repo.Interleave(gap);
    AbandonIsNoObservation(repo.cfg, repo.View(), id, c);
    if abandons {
      var _ := repo.Abandon(id, c);
    }
  }

  /**
   * Every way out is one terminal write: with an observation the result and the release, tried as `tries` says;
   * without one an abandon, which stores nothing. A write that fails leaves the lease standing.
   */
  method RunOne(recorder: Recorder, id: nat, c: Claim, env: seq<Action>, ending: Ending, tries: seq<Try>,
                gap: seq<Action>, abandons: bool) returns (used: nat)
    requires Inv(recorder.repo.cfg, recorder.repo.View()) && IsRunning(recorder.repo.View(), id, c)
    requires (forall a :: a in env ==> LeavesRunning(a, id, c)) && |tries| >= 1
    modifies recorder`results, recorder.repo
    ensures !ending.Observed? ==>
              && recorder.results == old(recorder.results) && used == 0
              && var s := Run(recorder.repo.cfg, AtEnd(recorder.repo.cfg, old(recorder.repo.View()), env, id, c), gap);
                 recorder.repo.View() == if abandons then Step(recorder.repo.cfg, s, Action.Abandon(id, c)) else s
    ensures !ending.Observed? ==>
              var s := Run(recorder.repo.cfg, AtEnd(recorder.repo.cfg, old(recorder.repo.View()), env, id, c), gap);
              && id in s.monitors && id in recorder.repo.monitors
              && NothingObserved(s.monitors[id], recorder.repo.monitors[id])
    ensures ending.Observed? ==>
              && 1 <= used <= |tries| && (forall i :: 0 <= i < used - 1 ==> !tries[i].outcome.Acked?)
              && (tries[used - 1].outcome.Acked? || used == |tries| || tries[used].expired)
              && var start := AtEnd(recorder.repo.cfg, old(recorder.repo.View()), env, id, c);
                 recorder.repo.View() == AfterTries(recorder.repo.cfg, start, id, c, tries[..used])
    ensures ending.Observed? ==>
              used <= |tries| && recorder.results == StoredAfter(old(recorder.results), ending.row, tries[..used])
  {
    EndOwnProbe(recorder.repo, id, c, env);
    used := 0;
    if ending.Observed? {
      var r;
      r, used := recorder.RecordAndRelease(ending.row, id, c, tries);
    } else {
      GiveUp(recorder.repo, id, c, gap, abandons);
    }
  }
}
