/** The scheduling statements as updates in place, each proved to be its atomic step. */
module EndpointRuntimeRepository {
  import opened Wrappers
  import opened Scheduling

  function Rowless(monitors: map<nat, Monitor>): set<nat> {
    set id | id in monitors && monitors[id].endpoint.Some? && monitors[id].row.None?
  }

  function StaleIds(monitors: map<nat, Monitor>, now: int, locked: set<nat>): set<nat> {
    set id | id in monitors && id !in locked && Stale(monitors[id], now)
  }

  /** A statement part of the way: the rows of `todo` are as it found them, the others as it leaves them. */
  ghost predicate Halfway(cfg: Config, before: map<nat, Monitor>, now: map<nat, Monitor>, a: Action, todo: set<nat>) {
    && now.Keys == before.Keys
    && forall id :: id in before ==> now[id] == if id in todo then before[id] else Local(cfg, a, id, before[id])
  }

  lemma OneRowMore(cfg: Config, before: map<nat, Monitor>, now: map<nat, Monitor>, a: Action, todo: set<nat>, id: nat)
    requires Halfway(cfg, before, now, a, todo) && id in todo && id in before
    ensures Halfway(cfg, before, now[id := Local(cfg, a, id, before[id])], a, todo - {id})
  {
  }

  /** With nothing left to do the statement has been applied. */
  lemma AllRowsDone(cfg: Config, before: State, now: map<nat, Monitor>, a: Action)
    requires Halfway(cfg, before.monitors, now, a, {}) && !a.AddEndpoint? && !a.Tick?
    ensures before.(monitors := now) == Apply(cfg, before, a)
  {
  }

  /** The claims of these rows, as `RETURNING` gives them. */
  ghost predicate Returned(before: map<nat, Monitor>, a: Action, done: set<nat>, rows: map<nat, Claim>)
    requires a.ClaimDue?
  {
    && rows.Keys == done
    && forall id :: id in done ==>
         id in before && Due(before[id], a.now) && rows[id] == ClaimOf(before[id], a.worker, a.now)
  }

  lemma OneReturnedMore(before: map<nat, Monitor>, a: Action, done: set<nat>, rows: map<nat, Claim>, id: nat)
    requires a.ClaimDue? && Returned(before, a, done, rows) && id in before && Due(before[id], a.now)
    ensures Returned(before, a, done + {id}, rows[id := ClaimOf(before[id], a.worker, a.now)])
  {
  }

  /** Whatever is picked is due, and the statement leaves the other rows alone. */
  lemma PickedAreDue(cfg: Config, before: map<nat, Monitor>, a: Action)
    requires a.ClaimDue? && Picks(before, a.now, a.batch, a.locked, a.picked)
    ensures forall id :: id in a.picked ==> id in before && Due(before[id], a.now)
    ensures Halfway(cfg, before, before, a, a.picked)
  {
  }

  lemma OldestPicked(monitors: map<nat, Monitor>, now: int, batch: nat, locked: set<nat>, picked: set<nat>,
                     rest: set<nat>)
    requires picked !! rest && picked + rest == DueIds(monitors, now, locked) && |picked| <= batch
    requires |picked| == batch || rest == {}
    requires forall p, q :: p in picked && q in rest ==>
               monitors[p].row.value.nextRunAt <= monitors[q].row.value.nextRunAt
    ensures Picks(monitors, now, batch, locked, picked)
  {
    var due := DueIds(monitors, now, locked);
    assert |due| == |picked| + |rest|;
    assert due - picked == rest;
  }

  class Repository {
    const cfg: Config
    var monitors: map<nat, Monitor>
    var clock: int

    constructor (cfg: Config, clock: int)
      ensures this.cfg == cfg && View() == State(map[], clock)
    {
      this.cfg, this.monitors, this.clock := cfg, map[], clock;
    }

    function View(): State
      reads this
    {
      State(monitors, clock)
    }

    /** Other sessions' statements, and the clock. */
    method Interleave(steps: seq<Action>)
      modifies this
      ensures View() == Run(cfg, old(View()), steps)
    {
      var s := Run(cfg, View(), steps);
      monitors, clock := s.monitors, s.clock;
    }

    /** Creates the runtime row of every endpoint that has none. */
    method Adopt(now: int, jitter: map<nat, nat>) returns (count: nat)
      modifies this`monitors
      ensures View() == Apply(cfg, old(View()), Action.Adopt(now, jitter))
      ensures count == |Rowless(old(monitors))|
    {
      var todo := Rowless(monitors);
      count := |todo|;
      ghost var a := Action.Adopt(now, jitter);
      ghost var before, all := monitors, todo;
      assert forall id :: id in before && id !in all ==> Local(cfg, a, id, before[id]) == before[id];
      while todo != {}
        invariant todo <= all && Halfway(cfg, before, monitors, a, todo)
      {
        var id :| id in todo;
        OneRowMore(cfg, before, monitors, a, todo, id);
        monitors := monitors[id := Adopted(monitors[id], now, if id in jitter then jitter[id] else 0)];
        todo := todo - {id};
      }
      AllRowsDone(cfg, old(View()), monitors, a);
    }

    /** Re-derives the next slot of every claimable row whose interval has changed since it was computed. */
    method Reconcile(now: int, locked: set<nat>) returns (count: nat)
      modifies this`monitors
      ensures View() == Apply(cfg, old(View()), Action.Reconcile(now, locked))
      ensures count == |StaleIds(old(monitors), now, locked)|
    {
      var todo := StaleIds(monitors, now, locked);
      count := |todo|;
      ghost var a := Action.Reconcile(now, locked);
      ghost var before, all := monitors, todo;
      assert forall id :: id in before && id !in all ==> Local(cfg, a, id, before[id]) == before[id];
      while todo != {}
        invariant todo <= all && Halfway(cfg, before, monitors, a, todo)
      {
        var id :| id in todo;
        OneRowMore(cfg, before, monitors, a, todo, id);
        monitors := monitors[id := Reconciled(monitors[id])];
        todo := todo - {id};
      }
      AllRowsDone(cfg, old(View()), monitors, a);
    }

    /** The row of `ids` with the least next slot. */
    method Oldest(ids: set<nat>) returns (oldest: nat)
      requires ids != {} && forall id :: id in ids ==> id in monitors && monitors[id].row.Some?
      ensures oldest in ids
      ensures forall id :: id in ids ==> monitors[oldest].row.value.nextRunAt <= monitors[id].row.value.nextRunAt
    {
      oldest :| oldest in ids;
      var todo := ids - {oldest};
      while todo != {}
        invariant todo <= ids && oldest in ids - todo
        invariant forall id :: id in ids - todo ==>
                    monitors[oldest].row.value.nextRunAt <= monitors[id].row.value.nextRunAt
      {
        var id :| id in todo;
        if monitors[id].row.value.nextRunAt < monitors[oldest].row.value.nextRunAt {
          oldest := id;
        }
        todo := todo - {id};
      }
    }

    /** `ORDER BY next_run_at ... SKIP LOCKED LIMIT batch` over the due rows. */
    method Pick(now: int, batch: nat, locked: set<nat>) returns (picked: set<nat>)
      ensures Picks(monitors, now, batch, locked, picked)
      ensures Paced(monitors) ==> TakesOldest(monitors, now, batch, locked, picked)
    {
      var rest := DueIds(monitors, now, locked);
      ghost var due := rest;
      picked := {};
      while |picked| < batch && rest != {}
        invariant picked !! rest && picked + rest == due && |picked| <= batch
        invariant forall p, q :: p in picked && q in rest ==>
                    monitors[p].row.value.nextRunAt <= monitors[q].row.value.nextRunAt
        decreases rest
      {
        var id := Oldest(rest);
        picked, rest := picked + {id}, rest - {id};
      }
      OldestPicked(monitors, now, batch, locked, picked, rest);
      if Paced(monitors) {
        PicksTakeOldest(monitors, now, batch, locked, picked);
      }
    }

    /** Moves one picked row on and leases it, the rows of `todo` being still as the statement found them. */
    method ClaimRow(id: nat, worker: Worker, now: int, ghost a: Action, ghost before: map<nat, Monitor>,
                    ghost todo: set<nat>) returns (row: Scheduling.Claim)
      requires a.ClaimDue? && a.worker == worker && a.now == now && id in a.picked && id in todo
      requires id in before && Due(before[id], now) && Halfway(cfg, before, monitors, a, todo)
      modifies this`monitors
      ensures row == ClaimOf(before[id], worker, now) && Halfway(cfg, before, monitors, a, todo - {id})
    {
      OneRowMore(cfg, before, monitors, a, todo, id);
      var m := monitors[id];
      row := ClaimOf(m, worker, now);
      monitors := monitors[id := Claimed(m, worker, now, cfg.lease)];
    }

    /** Claims up to `batch` of the oldest due endpoints for `worker` and logs each slot. */
    method Claim(worker: Worker, now: int, batch: nat, locked: set<nat>)
      returns (rows: map<nat, Scheduling.Claim>, ghost picked: set<nat>)
      modifies this`monitors
      ensures Picks(old(monitors), now, batch, locked, picked)
      ensures Paced(old(monitors)) ==> TakesOldest(old(monitors), now, batch, locked, picked)
      ensures View() == Apply(cfg, old(View()), ClaimDue(worker, now, batch, locked, picked))
      ensures rows.Keys == picked
      ensures forall id :: id in picked ==> rows[id] == ClaimOf(old(monitors)[id], worker, now)
    {
      var todo := Pick(now, batch, locked);
      picked, rows := todo, map[];
      ghost var a := ClaimDue(worker, now, batch, locked, picked);
      ghost var before := monitors;
      PickedAreDue(cfg, before, a);
      while todo != {}
        invariant todo <= picked && Halfway(cfg, before, monitors, a, todo)
        invariant Returned(before, a, picked - todo, rows)
      {
        var id :| id in todo;
        OneReturnedMore(before, a, picked - todo, rows, id);
        assert picked - (todo - {id}) == picked - todo + {id};
        var row := ClaimRow(id, worker, now, a, before, todo);
        rows, todo := rows[id := row], todo - {id};
      }
      AllRowsDone(cfg, old(View()), monitors, a);
    }

    /** Clears the lease of exactly this claim, and says whether it did. */
    method Release(id: nat, worker: Worker, slot: int, now: int) returns (count: nat)
      modifies this`monitors
      ensures monitors == if id in old(monitors)
                          then old(monitors)[id := Released(old(monitors)[id], worker, slot, now)] else old(monitors)
      ensures count == if id in old(monitors) && Fenced(old(monitors)[id], worker, slot) then 1 else 0
    {
      count := 0;
      if id in monitors && Fenced(monitors[id], worker, slot) {
        var m := monitors[id];
        monitors := monitors[id := m.(row := Some(m.row.value.(leasedUntil := None, leasedBy := None,
                                                               lastProbeAt := Some(now))))];
        count := 1;
      }
    }

    /** Marks a claim's result as stored, in the transaction that stores it. */
    method MarkStored(id: nat, claim: Scheduling.Claim)
      requires id in monitors
      modifies this`monitors
      ensures monitors == old(monitors)[id := old(monitors)[id].(stored := old(monitors)[id].stored + {claim})]
    {
      monitors := monitors[id := monitors[id].(stored := monitors[id].stored + {claim})];
    }

    /** Ends a claim that observed nothing. */
    method Abandon(id: nat, claim: Scheduling.Claim) returns (count: nat)
      modifies this`monitors
      ensures id in old(monitors) ==> View() == Apply(cfg, old(View()), Action.Abandon(id, claim))
      ensures id !in old(monitors) ==> View() == old(View())
      ensures count == if id in old(monitors) && Fenced(old(monitors)[id], claim.worker, claim.slot) then 1 else 0
    {
      count := 0;
      if id in monitors && Fenced(monitors[id], claim.worker, claim.slot) {
        var m := monitors[id];
        monitors := monitors[id := m.(row := Some(m.row.value.(leasedUntil := None, leasedBy := None)))];
        count := 1;
      }
    }
  }
}
