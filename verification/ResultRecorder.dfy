/** How a probed slot ends: a result and a release in one transaction, tried again when it fails. */
module ResultRecorder {
  import opened Wrappers
  import opened Scheduling
  import opened EndpointRuntimeRepository

  /** The key a retry repeats and no other attempt shares. */
  datatype Key = Key(endpoint: nat, startedAt: int, attempt: nat)

  datatype NewResult = NewResult(key: Key, slot: int, data: seq<int>)

  /** A transaction can commit and be acknowledged, commit with its acknowledgement lost, or not commit. */
  datatype Outcome = Acked | AckLost | Failed

  /**
   * One attempt: what other sessions do before it, whether the shutdown grace has passed by then, how far its `now`
   * lies behind the clock, and how it ends.
   */
  datatype Try = Try(env: seq<Action>, expired: bool, lag: nat, outcome: Outcome)

  datatype Written = Written(inserted: nat, released: nat)

  /** The runtime table after some attempts to end claim `c`. */
  function AfterTries(cfg: Config, s: State, id: nat, c: Claim, tries: seq<Try>): State {
    if tries == [] then s
    else AfterTry(cfg, AfterTries(cfg, s, id, c, tries[..|tries| - 1]), id, c, tries[|tries| - 1])
  }

  function AfterTry(cfg: Config, s: State, id: nat, c: Claim, t: Try): State {
    var s' := Run(cfg, s, t.env);
    if t.outcome.Failed? then s' else Step(cfg, s', Record(id, c, s'.clock - t.lag))
  }

  predicate AnyCommitted(tries: seq<Try>) { exists i :: 0 <= i < |tries| && !tries[i].outcome.Failed? }

  /** The claim's probe is over. */
  ghost predicate Ended(s: State, id: nat, c: Claim) {
    id in s.monitors && c in s.monitors[id].claims && c !in s.monitors[id].probing
  }

  lemma StepKeepsEnded(cfg: Config, s: State, a: Action, id: nat, c: Claim)
    requires Inv(cfg, s) && Ended(s, id, c)
    ensures Inv(cfg, Step(cfg, s, a)) && Ended(Step(cfg, s, a), id, c)
  {
    assert [a][..0] == [] && Run(cfg, s, [a]) == Step(cfg, Run(cfg, s, []), a);
    RunKeepsInv(cfg, s, [a]);
    EndedStaysEnded(cfg, s, [a], id, c);
  }

  lemma RunKeepsEnded(cfg: Config, s: State, steps: seq<Action>, id: nat, c: Claim)
    requires Inv(cfg, s) && Ended(s, id, c)
    ensures Inv(cfg, Run(cfg, s, steps)) && Ended(Run(cfg, s, steps), id, c)
  {
    RunKeepsInv(cfg, s, steps);
    EndedStaysEnded(cfg, s, steps, id, c);
  }

  lemma FailedTry(cfg: Config, s: State, id: nat, c: Claim, t: Try)
    requires t.outcome.Failed?
    ensures AfterTry(cfg, s, id, c, t) == Run(cfg, s, t.env)
  {
  }

  lemma CommittedTry(cfg: Config, s: State, id: nat, c: Claim, t: Try) returns (a: Action)
    requires !t.outcome.Failed?
    ensures AfterTry(cfg, s, id, c, t) == Step(cfg, Run(cfg, s, t.env), a)
  {
    a := Record(id, c, Run(cfg, s, t.env).clock - t.lag);
  }

  lemma TryKeeps(cfg: Config, s: State, id: nat, c: Claim, t: Try)
    requires Inv(cfg, s) && Ended(s, id, c)
    ensures Inv(cfg, AfterTry(cfg, s, id, c, t)) && Ended(AfterTry(cfg, s, id, c, t), id, c)
    ensures Inv(cfg, Run(cfg, s, t.env)) && Ended(Run(cfg, s, t.env), id, c)
  {
    RunKeepsEnded(cfg, s, t.env, id, c);
    if t.outcome.Failed? {
      FailedTry(cfg, s, id, c, t);
    } else {
      var a := CommittedTry(cfg, s, id, c, t);
      StepKeepsEnded(cfg, Run(cfg, s, t.env), a, id, c);
    }
  }

  lemma {:induction false} TriesKeep(cfg: Config, s: State, id: nat, c: Claim, tries: seq<Try>)
    requires Inv(cfg, s) && Ended(s, id, c)
    ensures Inv(cfg, AfterTries(cfg, s, id, c, tries)) && Ended(AfterTries(cfg, s, id, c, tries), id, c)
  {
    if tries != [] {
      TriesKeep(cfg, s, id, c, tries[..|tries| - 1]);
      TryKeeps(cfg, AfterTries(cfg, s, id, c, tries[..|tries| - 1]), id, c, tries[|tries| - 1]);
    }
  }

  /** A committed attempt stores the result and leaves the claim without a lease to clear. */
  lemma CommitReleases(cfg: Config, s: State, id: nat, c: Claim, t: Try)
    requires Inv(cfg, s) && Ended(s, id, c) && !t.outcome.Failed?
    ensures id in Run(cfg, s, t.env).monitors && id in AfterTry(cfg, s, id, c, t).monitors
    ensures var m, m' := Run(cfg, s, t.env).monitors[id], AfterTry(cfg, s, id, c, t).monitors[id];
            && c in m'.stored && !Fenced(m', c.worker, c.slot)
            && (!Fenced(m, c.worker, c.slot) ==> m'.row == m.row)
  {
    TryKeeps(cfg, s, id, c, t);
  }

  lemma {:induction false} CommittedHasNoFence(cfg: Config, s: State, id: nat, c: Claim, tries: seq<Try>)
    requires Inv(cfg, s) && Ended(s, id, c) && AnyCommitted(tries)
    ensures id in AfterTries(cfg, s, id, c, tries).monitors
    ensures !Fenced(AfterTries(cfg, s, id, c, tries).monitors[id], c.worker, c.slot)
  {
    var before, t := tries[..|tries| - 1], tries[|tries| - 1];
    var mid := AfterTries(cfg, s, id, c, before);
    TriesKeep(cfg, s, id, c, before);
    TryKeeps(cfg, mid, id, c, t);
    if t.outcome.Failed? {
      var i :| 0 <= i < |tries| && !tries[i].outcome.Failed?;
      assert before[i] == tries[i];
      CommittedHasNoFence(cfg, s, id, c, before);
      FenceNeverReturns(cfg, mid, t.env, id, c);
    } else {
      CommitReleases(cfg, mid, id, c, t);
    }
  }

  /**
   * However many attempts commit because acknowledgements were lost, only the first can touch the runtime row: a later
   * one leaves it exactly as other sessions had made it, a peer's new lease included.
   */
  lemma RetriesReleaseOnce(cfg: Config, s: State, id: nat, c: Claim, tries: seq<Try>, t: Try)
    requires Inv(cfg, s) && Ended(s, id, c) && AnyCommitted(tries)
    ensures var mid := AfterTries(cfg, s, id, c, tries);
            && id in mid.monitors && id in Run(cfg, mid, t.env).monitors && id in AfterTry(cfg, mid, id, c, t).monitors
            && AfterTry(cfg, mid, id, c, t).monitors[id].row == Run(cfg, mid, t.env).monitors[id].row
  {
    var mid := AfterTries(cfg, s, id, c, tries);
    TriesKeep(cfg, s, id, c, tries);
    CommittedHasNoFence(cfg, s, id, c, tries);
    FenceNeverReturns(cfg, mid, t.env, id, c);
    if !t.outcome.Failed? {
      CommitReleases(cfg, mid, id, c, t);
    }
  }

  lemma TryRunsOnEnded(cfg: Config, s: State, id: nat, c: Claim, tries: seq<Try>, t: Try)
    requires Inv(cfg, s) && Ended(s, id, c)
    ensures Ended(Run(cfg, AfterTries(cfg, s, id, c, tries), t.env), id, c)
  {
    TriesKeep(cfg, s, id, c, tries);
    EndedStaysEnded(cfg, AfterTries(cfg, s, id, c, tries), t.env, id, c);
  }

  /** The result table after some attempts to store `row`. */
  function StoredAfter(results: map<Key, NewResult>, row: NewResult, tries: seq<Try>): map<Key, NewResult> {
    if AnyCommitted(tries) && row.key !in results then results[row.key := row] else results
  }

  /** Why the first `n` attempts did not end it: none was acknowledged, nor any but the first held back by the grace. */
  predicate WentOn(tries: seq<Try>, n: nat) {
    && n <= |tries| && (forall i :: 0 <= i < n ==> !tries[i].outcome.Acked?)
    && forall i :: 1 <= i < n ==> !tries[i].expired
  }

  lemma OneMoreWent(tries: seq<Try>, n: nat)
    requires WentOn(tries, n) && n < |tries| && (n > 0 ==> !tries[n].expired)
    ensures !tries[n].outcome.Acked? ==> WentOn(tries, n + 1)
  {
  }

  class Recorder {
    const repo: Repository
    var results: map<Key, NewResult>

    constructor (repo: Repository)
      ensures this.repo == repo && results == map[]
    {
      this.repo, this.results := repo, map[];
    }

    /** An insert that gives way to a row already there under the same key. */
    method Insert(row: NewResult) returns (count: nat)
      modifies this`results
      ensures results == if row.key in old(results) then old(results) else old(results)[row.key := row]
      ensures count == if row.key in old(results) then 0 else 1
    {
      count := 0;
      if row.key !in results {
        results := results[row.key := row];
        count := 1;
      }
    }

    /** One transaction: both writes, or neither. */
    method Transaction(row: NewResult, id: nat, c: Claim, lag: nat, commits: bool) returns (w: Written)
      requires Ended(repo.View(), id, c)
      modifies this`results, repo`monitors
      ensures !commits ==> results == old(results) && repo.View() == old(repo.View())
      ensures commits ==>
                && results == (if row.key in old(results) then old(results) else old(results)[row.key := row])
                && repo.View() == Step(repo.cfg, old(repo.View()), Record(id, c, repo.clock - lag))
                && w == Written(if row.key in old(results) then 0 else 1,
                                if Fenced(old(repo.View()).monitors[id], c.worker, c.slot) then 1 else 0)
    {
      w := Written(0, 0);
      if !commits {
        return;
      }
      var inserted := Insert(row);
      var released := repo.Release(id, c.worker, c.slot, repo.clock - lag);
      repo.MarkStored(id, c);
      w := Written(inserted, released);
    }

    /** One attempt, after whatever other sessions do first. */
    method Attempt(row: NewResult, id: nat, c: Claim, t: Try) returns (w: Written)
      requires Ended(Run(repo.cfg, repo.View(), t.env), id, c)
      modifies this`results, repo
      ensures repo.View() == AfterTry(repo.cfg, old(repo.View()), id, c, t)
      ensures results == if !t.outcome.Failed? && row.key !in old(results) then old(results)[row.key := row]
                         else old(results)
      ensures !t.outcome.Failed? ==>
                var s := Run(repo.cfg, old(repo.View()), t.env);
                && id in s.monitors
                && w == Written(if row.key in old(results) then 0 else 1,
                                if Fenced(s.monitors[id], c.worker, c.slot) then 1 else 0)
    {
      repo.Interleave(t.env);
      w := Transaction(row, id, c, t.lag, !t.outcome.Failed?);
    }

    /** The attempt after `used` others. */
    method NextAttempt(row: NewResult, id: nat, c: Claim, tries: seq<Try>, used: nat, ghost start: State,
                       ghost before: map<Key, NewResult>) returns (w: Written)
      requires used < |tries| && Inv(repo.cfg, start) && Ended(start, id, c)
      requires repo.View() == AfterTries(repo.cfg, start, id, c, tries[..used])
      requires results == StoredAfter(before, row, tries[..used])
      modifies this`results, repo
      ensures repo.View() == AfterTries(repo.cfg, start, id, c, tries[..used + 1])
      ensures results == StoredAfter(before, row, tries[..used + 1])
      ensures !tries[used].outcome.Failed? ==>
                row.key in results && (w.inserted > 0 <==> row.key !in before && !AnyCommitted(tries[..used]))
    {
      TryRunsOnEnded(repo.cfg, start, id, c, tries[..used], tries[used]);
      w := Attempt(row, id, c, tries[used]);
      OneMoreTry(repo.cfg, start, id, c, tries, used);
    }

    /**
     * Up to `|tries|` attempts. The first always runs; a later one does not start once the grace has passed. `used` is
     * how many ran.
     */
    method RecordAndRelease(row: NewResult, id: nat, c: Claim, tries: seq<Try>)
      returns (r: Result<Written, ()>, used: nat)
      requires |tries| >= 1 && Inv(repo.cfg, repo.View()) && Ended(repo.View(), id, c)
      modifies this`results, repo
      ensures 1 <= used <= |tries|
      ensures r.Ok? <==> tries[used - 1].outcome.Acked?
      ensures forall i :: 0 <= i < used - 1 ==> !tries[i].outcome.Acked?
      ensures forall i :: 1 <= i < used ==> !tries[i].expired
      ensures r.Err? ==> used == |tries| || tries[used].expired
      ensures repo.View() == AfterTries(repo.cfg, old(repo.View()), id, c, tries[..used])
      ensures results == StoredAfter(old(results), row, tries[..used])
      ensures r.Ok? ==>
                && row.key in results
                && (r.value.inserted > 0 <==> row.key !in old(results) && !AnyCommitted(tries[..used - 1]))
    {
      used, r := 0, Err(());
      ghost var start, before := repo.View(), results;
      while used < |tries|
        invariant 0 <= used <= |tries| && r.Err?
        invariant WentOn(tries, used)
        invariant repo.View() == AfterTries(repo.cfg, start, id, c, tries[..used])
        invariant results == StoredAfter(before, row, tries[..used])
      {
        var t := tries[used];
        if used > 0 && t.expired {
          return;
        }
        OneMoreWent(tries, used);
        var w := NextAttempt(row, id, c, tries, used, start, before);
        used := used + 1;
        if t.outcome.Acked? {
          r := Ok(w);
          return;
        }
      }
    }
  }

  lemma OneMoreTry(cfg: Config, s: State, id: nat, c: Claim, tries: seq<Try>, used: nat)
    requires used < |tries|
    ensures AfterTries(cfg, s, id, c, tries[..used + 1])
         == AfterTry(cfg, AfterTries(cfg, s, id, c, tries[..used]), id, c, tries[used])
    ensures AnyCommitted(tries[..used + 1]) <==> AnyCommitted(tries[..used]) || !tries[used].outcome.Failed?
  {
    var all := tries[..used + 1];
    assert all[..|all| - 1] == tries[..used] && all[used] == tries[used];
    assert forall i :: 0 <= i < used ==> all[i] == tries[..used][i];
  }
}
