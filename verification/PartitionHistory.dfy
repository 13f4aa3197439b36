/** Partitions in any states at all are reached, with a folded result that started in any of them. */
module PartitionHistory {
  import opened Wrappers
  import opened Calendar
  import opened Aggregate
  import opened Warehouse

  function Empty(clock: int): Db { Db(0, map[], [], map[], 0, clock, None, map[], {}, clock) }

  function AllAttached(keys: set<Part>): map<Part, PartState> { map p | p in keys :: Attached }

  predicate Named(keys: set<Part>) { forall p :: p in keys ==> FIRST <= p.lo && p == PartOf(p.family, p.lo) }

  /** A result to come, and partitions that include the three it needs. */
  datatype Scene = Scene(row: Row, keys: set<Part>)
  {
    predicate Valid() {
      && row.xid == 0 && FIRST <= row.startedAt && Named(keys)
      && forall f: Family :: PartOf(f, row.startedAt) in keys
    }
  }

  lemma Then(cfg: Config, db: Db, steps: seq<Action>, mid: Db, a: Action, next: Db) returns (more: seq<Action>)
    requires Run(cfg, db, steps) == mid && Enabled(cfg, mid, a) && Apply(cfg, mid, a) == next
    ensures Run(cfg, db, more) == next
  {
    more := steps + [a];
    assert more[..|more| - 1] == steps;
  }

  // ---- The result, stored and folded ----

  lemma CanCreate(cfg: Config, db: Db, p: Part)
    requires p !in db.parts && FIRST <= p.lo && p == PartOf(p.family, p.lo)
    ensures Enabled(cfg, db, Create(p)) && Apply(cfg, db, Create(p)) == db.(parts := db.parts[p := Attached])
  {
  }

  lemma OneAttachedMore(keys: set<Part>, p: Part)
    requires p in keys
    ensures AllAttached(keys - {p})[p := Attached] == AllAttached(keys)
  {
  }

  lemma {:induction false} CreateAll(cfg: Config, clock: int, keys: set<Part>) returns (steps: seq<Action>)
    requires Named(keys)
    ensures Run(cfg, Empty(clock), steps) == Empty(clock).(parts := AllAttached(keys))
    decreases |keys|
  {
    steps := [];
    if keys == {} {
      assert AllAttached(keys) == map[];
    } else {
      var p :| p in keys;
      var db := Empty(clock).(parts := AllAttached(keys - {p}));
      steps := CreateAll(cfg, clock, keys - {p});
      OneAttachedMore(keys, p);
      CanCreate(cfg, db, p);
      steps := Then(cfg, Empty(clock), steps, db, Create(p), db.(parts := AllAttached(keys)));
    }
  }

  /** The database with the scene's partitions attached, given the rest. */
  function At(s: Scene, nextXid: nat, tx: TxTable, rows: seq<Row>): Db {
    Empty(s.row.startedAt).(parts := AllAttached(s.keys), nextXid := nextXid, tx := tx, rows := rows)
  }

  lemma CanBegin(cfg: Config, s: Scene)
    ensures Apply(cfg, At(s, 0, map[], []), Begin) == At(s, 1, map[0 := Running], [])
  {
  }

  lemma CanInsert(cfg: Config, s: Scene)
    requires s.Valid()
    ensures Enabled(cfg, At(s, 1, map[0 := Running], []), Insert(s.row))
    ensures Apply(cfg, At(s, 1, map[0 := Running], []), Insert(s.row)) == At(s, 1, map[0 := Running], [s.row])
  {
    PartContains(Raw, s.row.startedAt);
  }

  lemma CanCommit(cfg: Config, s: Scene)
    ensures Enabled(cfg, At(s, 1, map[0 := Running], [s.row]), Commit(0))
    ensures Apply(cfg, At(s, 1, map[0 := Running], [s.row]), Commit(0)) == At(s, 1, map[0 := Committed], [s.row])
  {
    assert map[0 := Running][0 := Committed] == map[0 := Committed];
  }

  lemma StoreResult(cfg: Config, s: Scene) returns (steps: seq<Action>)
    requires s.Valid()
    ensures Run(cfg, Empty(s.row.startedAt), steps) == At(s, 1, map[0 := Committed], [s.row])
  {
    var db0, db1, db2 := At(s, 0, map[], []), At(s, 1, map[0 := Running], []), At(s, 1, map[0 := Running], [s.row]);
    var empty := Empty(s.row.startedAt);
    CanBegin(cfg, s);
    CanInsert(cfg, s);
    CanCommit(cfg, s);
    steps := CreateAll(cfg, s.row.startedAt, s.keys);
    steps := Then(cfg, empty, steps, db0, Begin, db1);
    steps := Then(cfg, empty, steps, db1, Insert(s.row), db2);
    steps := Then(cfg, empty, steps, db2, Commit(0), At(s, 1, map[0 := Committed], [s.row]));
  }

  /** A pass over the one result, from its lock to its last write. */
  function Folding(s: Scene, last: nat, horizon: nat, stats: map<Key, Stat>): Db {
    At(s, 2, map[0 := Committed, 1 := Running], [s.row]).(pass := Some(Pass(1, last, horizon, stats, s.row.startedAt)))
  }

  function Folded(s: Scene, stats: map<Key, Stat>): Db {
    At(s, 2, map[0 := Committed, 1 := Committed], [s.row])
      .(stats := stats, lastXid := 1, pass := None, advancedAt := s.row.startedAt)
  }

  lemma XminIs(tx: TxTable, nextXid: nat, x: nat)
    requires x < nextXid && IsRunning(tx, x) && forall y :: 0 <= y < x ==> !IsRunning(tx, y)
    ensures OldestRunning(tx, nextXid, 0) == x
  {
  }

  lemma LockStep(cfg: Config, s: Scene)
    ensures Apply(cfg, At(s, 1, map[0 := Committed], [s.row]), PassLock) == Folding(s, 0, 0, map[])
  {
    assert map[0 := Committed][1 := Running] == map[0 := Committed, 1 := Running];
  }

  lemma HorizonStep(cfg: Config, s: Scene)
    ensures Apply(cfg, Folding(s, 0, 0, map[]), PassHorizon) == Folding(s, 0, 1, map[])
  {
    var db := Folding(s, 0, 0, map[]);
    assert !IsRunning(db.tx, 0) && IsRunning(db.tx, 1);
    XminIs(db.tx, db.nextXid, 1);
  }

  lemma CanFold(cfg: Config, s: Scene)
    requires s.Valid()
    ensures Enabled(cfg, Folding(s, 0, 1, map[]), PassFold(1))
  {
  }

  lemma FoldStep(cfg: Config, s: Scene) returns (stats: map<Key, Stat>)
    requires Enabled(cfg, Folding(s, 0, 1, map[]), PassFold(1))
    ensures Apply(cfg, Folding(s, 0, 1, map[]), PassFold(1)) == Folding(s, 1, 1, stats)
  {
    var db := Folding(s, 0, 1, map[]);
    stats := FoldStats(db.pass.value.stats, db.rows, InBatch(db, 0, 1));
  }

  lemma CommitStep(cfg: Config, s: Scene, stats: map<Key, Stat>)
    ensures Apply(cfg, Folding(s, 1, 1, stats), PassCommit) == Folded(s, stats)
  {
    assert map[0 := Committed, 1 := Running][1 := Committed] == map[0 := Committed, 1 := Committed];
  }

  lemma FoldResult(cfg: Config, s: Scene) returns (steps: seq<Action>, stats: map<Key, Stat>)
    requires s.Valid()
    ensures Run(cfg, Empty(s.row.startedAt), steps) == Folded(s, stats)
  {
    var empty := Empty(s.row.startedAt);
    steps := StoreResult(cfg, s);
    LockStep(cfg, s);
    steps := Then(cfg, empty, steps, At(s, 1, map[0 := Committed], [s.row]), PassLock, Folding(s, 0, 0, map[]));
    HorizonStep(cfg, s);
    steps := Then(cfg, empty, steps, Folding(s, 0, 0, map[]), PassHorizon, Folding(s, 0, 1, map[]));
    CanFold(cfg, s);
    stats := FoldStep(cfg, s);
    steps := Then(cfg, empty, steps, Folding(s, 0, 1, map[]), PassFold(1), Folding(s, 1, 1, stats));
    CommitStep(cfg, s, stats);
    steps := Then(cfg, empty, steps, Folding(s, 1, 1, stats), PassCommit, Folded(s, stats));
  }

  // ---- The partitions, let go one after another ----

  lemma StaysExpired(cfg: Config, p: Part, now: int, later: int)
    requires Expired(cfg, p, now) && now <= later
    ensures Expired(cfg, p, later)
  {
  }

  /** An instant by which every partition is past its retention. */
  lemma {:induction false} AllExpire(cfg: Config, keys: set<Part>, clock: int) returns (later: int)
    ensures clock <= later && forall p :: p in keys ==> Expired(cfg, p, later)
    decreases |keys|
  {
    later := clock;
    if keys != {} {
      var p :| p in keys;
      var rest := AllExpire(cfg, keys - {p}, clock);
      var own := p.hi + cfg.Days(p.family) * DAY;
      later := if own < rest then rest else own;
      forall q | q in keys ensures Expired(cfg, q, later) {
        StaysExpired(cfg, q, if q == p then own else rest, later);
      }
    }
  }

  /** Past every retention, with some partitions cleared and in the states given. */
  function Late(s: Scene, stats: map<Key, Stat>, later: int, cleared: set<Part>, parts: map<Part, PartState>): Db {
    Folded(s, stats).(clock := later, cleared := cleared, parts := parts)
  }

  /** The partitions of `gone` in their final states, the others attached. */
  function Partway(final: map<Part, PartState>, gone: set<Part>): map<Part, PartState> {
    map p | p in final :: if p in gone then final[p] else Attached
  }

  lemma GuardStep(cfg: Config, s: Scene, stats: map<Key, Stat>, later: int, cleared: set<Part>,
                  parts: map<Part, PartState>, p: Part)
    requires IsAttached(parts, p) && Expired(cfg, p, later)
    ensures Enabled(cfg, Late(s, stats, later, cleared, parts), Guard(p, later)) || s.row.xid != 0
  {
  }

  lemma LetGo(cfg: Config, s: Scene, stats: map<Key, Stat>, later: int, cleared: set<Part>,
              parts: map<Part, PartState>, p: Part, before: seq<Action>, state: PartState) returns (steps: seq<Action>)
    requires s.row.xid == 0 && IsAttached(parts, p) && Expired(cfg, p, later) && !state.Attached?
    requires Run(cfg, Empty(s.row.startedAt), before) == Late(s, stats, later, cleared, parts)
    ensures Run(cfg, Empty(s.row.startedAt), steps) == Late(s, stats, later, cleared + {p}, parts[p := state])
  {
    var start := Empty(s.row.startedAt);
    var cleared' := cleared + {p};
    GuardStep(cfg, s, stats, later, cleared, parts, p);
    steps := Then(cfg, start, before, Late(s, stats, later, cleared, parts), Guard(p, later),
                  Late(s, stats, later, cleared', parts));
    steps := Detach(cfg, start, steps, Late(s, stats, later, cleared', parts), p, state);
  }

  lemma Detach(cfg: Config, start: Db, before: seq<Action>, db: Db, p: Part, state: PartState)
    returns (steps: seq<Action>)
    requires Run(cfg, start, before) == db && IsAttached(db.parts, p) && p in db.cleared && !state.Attached?
    ensures Run(cfg, start, steps) == db.(parts := db.parts[p := state])
  {
    var pending, detached := db.(parts := db.parts[p := Pending]), db.(parts := db.parts[p := Detached]);
    steps := Then(cfg, start, before, db, DetachBegin(p), pending);
    if !state.Pending? {
      assert pending.parts[p := Detached] == db.parts[p := Detached];
      steps := Then(cfg, start, steps, pending, DetachFinish(p), detached);
      if state.Dropped? {
        assert detached.parts[p := Dropped] == db.parts[p := Dropped];
        steps := Then(cfg, start, steps, detached, Drop(p), db.(parts := db.parts[p := Dropped]));
      }
    }
  }

  lemma {:induction false} LetAllGo(cfg: Config, s: Scene, stats: map<Key, Stat>, later: int,
                                    final: map<Part, PartState>, gone: set<Part>, before: seq<Action>)
    returns (steps: seq<Action>)
    requires s.row.xid == 0 && (forall p :: p in final ==> Expired(cfg, p, later))
    requires forall p :: p in gone ==> Gone(final, p)
    requires Run(cfg, Empty(s.row.startedAt), before) == Late(s, stats, later, {}, Partway(final, {}))
    ensures Run(cfg, Empty(s.row.startedAt), steps) == Late(s, stats, later, gone, Partway(final, gone))
    decreases |gone|
  {
    steps := before;
    if gone != {} {
      var p :| p in gone;
      var rest := gone - {p};
      steps := LetAllGo(cfg, s, stats, later, final, rest, before);
      steps := LetGo(cfg, s, stats, later, rest, Partway(final, rest), p, steps, final[p]);
      assert rest + {p} == gone && Partway(final, rest)[p := final[p]] == Partway(final, gone);
    }
  }

  /** One folded result, and the partitions as given. */
  ghost predicate HasFolded(db: Db, row: Row, parts: map<Part, PartState>) {
    db.parts == parts && db.rows == [row] && db.lastXid == 1 && IsCommitted(db.tx, 0)
  }

  lemma AdvanceStep(cfg: Config, s: Scene, stats: map<Key, Stat>, later: int)
    requires s.row.startedAt <= later && s.row.xid == 0
    ensures Enabled(cfg, Folded(s, stats), Advance(later))
    ensures Apply(cfg, Folded(s, stats), Advance(later)) == Late(s, stats, later, {}, AllAttached(s.keys))
  {
  }

  lemma WaitForAll(cfg: Config, s: Scene) returns (steps: seq<Action>, stats: map<Key, Stat>, later: int)
    requires s.Valid()
    ensures Run(cfg, Empty(s.row.startedAt), steps) == Late(s, stats, later, {}, AllAttached(s.keys))
    ensures forall p :: p in s.keys ==> Expired(cfg, p, later)
  {
    steps, stats := FoldResult(cfg, s);
    later := AllExpire(cfg, s.keys, s.row.startedAt);
    AdvanceStep(cfg, s, stats, later);
    steps := Then(cfg, Empty(s.row.startedAt), steps, Folded(s, stats), Advance(later),
                  Late(s, stats, later, {}, AllAttached(s.keys)));
  }

  lemma WholeWay(final: map<Part, PartState>) returns (gone: set<Part>)
    ensures Partway(final, {}) == AllAttached(final.Keys)
    ensures Partway(final, gone) == final && forall p :: p in gone ==> Gone(final, p)
  {
    gone := set p | p in final && !final[p].Attached?;
  }

  /**
   * Every catalogue is reached with a folded result: partitions created, a result stored and folded while all are
   * attached, then each let go as far as its state says.
   */
  lemma ReachesParts(cfg: Config, row: Row, parts: map<Part, PartState>) returns (steps: seq<Action>)
    requires Scene(row, parts.Keys).Valid()
    ensures HasFolded(Run(cfg, Empty(row.startedAt), steps), row, parts)
  {
    var s := Scene(row, parts.Keys);
    var stats, later;
    steps, stats, later := WaitForAll(cfg, s);
    var gone := WholeWay(parts);
    steps := LetAllGo(cfg, s, stats, later, parts, gone, steps);
  }
}
