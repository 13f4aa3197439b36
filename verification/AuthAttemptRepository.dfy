/** The limiter's table as the api updates it in place. */
module AuthAttemptRepository {
  import opened Wrappers
  import opened RateLimiter

  /** `Failed`: a lock was not to be had and the transaction ended. */
  datatype Verdict = Allowed | Refused(scope: Scope) | Failed

  predicate Mentions(a: Action, tx: nat) {
    !a.MarkSucceeded? && !a.Prune? && a.tx == tx
  }

  predicate OnlyOthers(steps: seq<Action>, tx: nat) {
    forall a :: a in steps ==> !Mentions(a, tx)
  }

  lemma {:induction false} RunConcat(cfg: Config, s: State, a: seq<Action>, b: seq<Action>)
    ensures Run(cfg, s, a + b) == Run(cfg, Run(cfg, s, a), b)
  {
    if b == [] {
      assert a + b == a;
    } else {
      var all := a + b;
      assert all[..|all| - 1] == a + b[..|b| - 1] && all[|all| - 1] == b[|b| - 1];
      RunConcat(cfg, s, a, b[..|b| - 1]);
    }
  }

  lemma RunOne(cfg: Config, s: State, steps: seq<Action>, a: Action)
    ensures Run(cfg, s, steps + [a]) == Step(cfg, Run(cfg, s, steps), a)
  {
    assert (steps + [a])[..|steps|] == steps;
  }

  lemma StepLeavesTx(cfg: Config, s: State, a: Action, tx: nat)
    requires tx in s.txs && !Mentions(a, tx)
    ensures tx in Step(cfg, s, a).txs && Step(cfg, s, a).txs[tx] == s.txs[tx]
  {
  }

  /** Other sessions do not move a transaction on. */
  lemma {:induction false} OthersLeaveTx(cfg: Config, s: State, steps: seq<Action>, tx: nat)
    requires tx in s.txs && OnlyOthers(steps, tx)
    ensures tx in Run(cfg, s, steps).txs && Run(cfg, s, steps).txs[tx] == s.txs[tx]
  {
    if steps != [] {
      OthersLeaveTx(cfg, s, steps[..|steps| - 1], tx);
      StepLeavesTx(cfg, Run(cfg, s, steps[..|steps| - 1]), steps[|steps| - 1], tx);
    }
  }

  /** Rows keep their place and their key. */
  ghost predicate Grows(a: seq<Entry>, b: seq<Entry>) {
    |a| <= |b| && forall i :: 0 <= i < |a| ==> b[i].key == a[i].key
  }

  lemma StepGrows(cfg: Config, s: State, a: Action)
    ensures Grows(s.entries, Step(cfg, s, a).entries)
  {
    if Enabled(cfg, s, a) && !a.Commit? {
      FlagSteps(cfg, s, a);
    }
  }

  lemma {:induction false} RunGrows(cfg: Config, s: State, steps: seq<Action>)
    ensures Grows(s.entries, Run(cfg, s, steps).entries)
  {
    if steps != [] {
      RunGrows(cfg, s, steps[..|steps| - 1]);
      StepGrows(cfg, Run(cfg, s, steps[..|steps| - 1]), steps[|steps| - 1]);
    }
  }

  /** One transaction's own steps, in order. */
  function Own(trace: seq<Action>, tx: nat): seq<Action> {
    if trace == [] then []
    else Own(trace[..|trace| - 1], tx) + if Mentions(trace[|trace| - 1], tx) then [trace[|trace| - 1]] else []
  }

  lemma {:induction false} OwnConcat(a: seq<Action>, b: seq<Action>, tx: nat)
    ensures Own(a + b, tx) == Own(a, tx) + Own(b, tx)
    ensures OnlyOthers(b, tx) ==> Own(b, tx) == []
  {
    if b == [] {
      assert a + b == a;
    } else {
      var all := a + b;
      assert all[..|all| - 1] == a + b[..|b| - 1] && all[|all| - 1] == b[|b| - 1];
      OwnConcat(a, b[..|b| - 1], tx);
    }
  }

  function Locks(n: nat, tx: nat): seq<Action> { seq(n, _ => Lock(tx)) }

  function Counts(r: Request, tx: nat): seq<Action> {
    [CountAddress(tx)] + (if r.email.Some? then [CountEmail(tx)] else [])
  }

  /** The statements of an admitted reservation. */
  function Statements(r: Request, tx: nat): seq<Action> {
    [Begin(tx, r)] + Locks(|r.Keys()|, tx) + (Counts(r, tx) + [Commit(tx)])
  }

  /** The lock a reservation waits for next is another transaction's. */
  predicate LockTaken(cfg: Config, s: State, tx: nat, r: Request) {
    && tx in s.txs && s.txs[tx].request == r && s.txs[tx].stage.Locking? && s.txs[tx].stage.got < |r.Keys()|
    && !Free(s, cfg.hash(r.Keys()[s.txs[tx].stage.got]), tx)
  }

  /** A reservation about to count a key finds its limit reached. */
  predicate LimitReached(cfg: Config, s: State, tx: nat, r: Request, scope: Scope) {
    && tx in s.txs && s.txs[tx].request == r
    && if scope.Email? then
         && s.txs[tx].stage.AddressPassed? && r.email.Some?
         && CountIf(s.entries, Counted(Key(Email, r.email.value), Since(cfg, r))) >= cfg.maxFailures
       else
         && scope == r.scope && Locked(s.txs[tx])
         && CountIf(s.entries, Counted(r.Address(), Since(cfg, r))) >= cfg.Limit(scope)
  }

  /** Why a reservation ends as it does: `last` is its last step, taken in state `s`. */
  predicate Cause(cfg: Config, s: State, tx: nat, r: Request, v: Verdict, last: Action) {
    match v
    case Allowed => last == Commit(tx) && Enabled(cfg, s, last)
    case Refused(scope) =>
      last == (if scope.Email? then CountEmail(tx) else CountAddress(tx)) && LimitReached(cfg, s, tx, r, scope)
    case Failed => last == Abort(tx) && LockTaken(cfg, s, tx, r)
  }

  /** The run's last step is why. */
  ghost predicate CausedBy(cfg: Config, start: State, trace: seq<Action>, tx: nat, r: Request, v: Verdict) {
    trace != [] && Cause(cfg, Run(cfg, start, trace[..|trace| - 1]), tx, r, v, trace[|trace| - 1])
  }

  lemma FrontOfBoth(before: seq<Action>, more: seq<Action>)
    requires more != []
    ensures var all := before + more;
            all[..|all| - 1] == before + more[..|more| - 1] && all[|all| - 1] == more[|more| - 1]
  {
  }

  lemma LastOfBoth(cfg: Config, start: State, before: seq<Action>, more: seq<Action>)
    requires more != []
    ensures var all, front := before + more, more[..|more| - 1];
            && Run(cfg, start, all[..|all| - 1]) == Run(cfg, Run(cfg, start, before), front)
            && all[|all| - 1] == more[|more| - 1]
  {
    FrontOfBoth(before, more);
    RunConcat(cfg, start, before, more[..|more| - 1]);
  }

  lemma CauseLifts(cfg: Config, start: State, before: seq<Action>, more: seq<Action>, tx: nat, r: Request, v: Verdict)
    requires CausedBy(cfg, Run(cfg, start, before), more, tx, r, v)
    ensures CausedBy(cfg, start, before + more, tx, r, v)
  {
    LastOfBoth(cfg, start, before, more);
  }

  /** As many rows of the request's key stand in the window as that scope's own limit allows. */
  predicate AtLimit(cfg: Config, s: State, r: Request, scope: Scope) {
    match scope
    case Ip => r.scope == Ip && |Standing(s.entries, Key(Ip, r.ip), r.now - cfg.window)| >= cfg.maxPerIp
    case Register =>
      r.scope == Register && |Standing(s.entries, Key(Register, r.ip), r.now - cfg.window)| >= cfg.maxRegistrations
    case Email =>
      && r.email.Some?
      && |Standing(s.entries, Key(Email, r.email.value), r.now - cfg.window)| >= cfg.maxFailures
  }

  /** A refusal has the rows to show for it. */
  ghost predicate RefusedAtLimit(cfg: Config, start: State, trace: seq<Action>, r: Request, v: Verdict) {
    v.Refused? ==> trace != [] && AtLimit(cfg, Run(cfg, start, trace[..|trace| - 1]), r, v.scope)
  }

  lemma RefusalCounts(cfg: Config, start: State, trace: seq<Action>, tx: nat, r: Request, v: Verdict)
    requires CausedBy(cfg, start, trace, tx, r, v)
    ensures RefusedAtLimit(cfg, start, trace, r, v)
  {
    if v.Refused? {
      LimitIsCounted(cfg, Run(cfg, start, trace[..|trace| - 1]), tx, r, v.scope);
    }
  }

  lemma LimitIsCounted(cfg: Config, s: State, tx: nat, r: Request, scope: Scope)
    requires LimitReached(cfg, s, tx, r, scope)
    ensures AtLimit(cfg, s, r, scope)
  {
    var k := if scope.Email? then Key(Email, r.email.value) else r.Address();
    CountsStanding(s.entries, k, r.now - cfg.window);
  }

  // ---- Nobody else about ----

  /** Steps of the transaction's own, or of a pool of others'. */
  predicate FromPool(steps: seq<Action>, tx: nat, pool: set<Action>) {
    forall a :: a in steps ==> Mentions(a, tx) || a in pool
  }

  function Pool(waits: seq<seq<Action>>): set<Action> { set w, a | w in waits && a in w :: a }

  lemma PoolJoins(a: seq<Action>, b: seq<Action>, tx: nat, pool: set<Action>)
    ensures FromPool(a + b, tx, pool) <==> FromPool(a, tx, pool) && FromPool(b, tx, pool)
  {
    assert forall x :: x in a + b <==> x in a || x in b;
  }

  lemma PoolGrows(before: seq<Action>, wait: seq<Action>, a: Action, tx: nat, pool: set<Action>)
    requires FromPool(before, tx, pool) && FromPool(wait, tx, pool) && Mentions(a, tx)
    ensures FromPool(before + (wait + [a]), tx, pool)
  {
    PoolJoins(wait, [a], tx, pool);
    PoolJoins(before, wait + [a], tx, pool);
  }

  lemma {:induction false} OwnIsAll(steps: seq<Action>, tx: nat)
    requires FromPool(steps, tx, {})
    ensures Own(steps, tx) == steps
  {
    if steps != [] {
      OwnIsAll(steps[..|steps| - 1], tx);
      assert steps == steps[..|steps| - 1] + [steps[|steps| - 1]];
    }
  }

  lemma OwnStepKeepsRows(cfg: Config, s: State, a: Action, tx: nat)
    requires Mentions(a, tx) && a != Commit(tx)
    ensures Step(cfg, s, a).entries == s.entries
  {
  }

  /** Until its commit a reservation alone changes no row. */
  lemma {:induction false} OwnStepsKeepRows(cfg: Config, s: State, steps: seq<Action>, tx: nat)
    requires FromPool(steps, tx, {}) && Commit(tx) !in steps
    ensures Run(cfg, s, steps).entries == s.entries
  {
    if steps != [] {
      OwnStepsKeepRows(cfg, s, steps[..|steps| - 1], tx);
      OwnStepKeepsRows(cfg, Run(cfg, s, steps[..|steps| - 1]), steps[|steps| - 1], tx);
    }
  }

  lemma RefusedAloneKeepsRows(cfg: Config, s: State, steps: seq<Action>, tx: nat)
    requires steps != [] && FromPool(steps, tx, {}) && Commit(tx) !in Own(steps, tx)
    ensures Run(cfg, s, steps[..|steps| - 1]).entries == s.entries
  {
    OwnIsAll(steps, tx);
    OwnStepsKeepRows(cfg, s, steps[..|steps| - 1], tx);
  }

  lemma ClearIsBelowLimit(cfg: Config, s: State, r: Request)
    requires cfg.Valid()
    requires r.email.Some? ==> Standing(s.entries, Key(Email, r.email.value), r.now - cfg.window) == {}
    ensures !AtLimit(cfg, s, r, Email)
  {
  }

  /** With no row of the account standing, a reservation alone is not refused for the account. */
  lemma ClearAccountIsAdmitted(cfg: Config, start: State, trace: seq<Action>, tx: nat, r: Request, v: Verdict)
    requires FromPool(trace, tx, {}) && (!v.Allowed? ==> Commit(tx) !in Own(trace, tx))
    requires RefusedAtLimit(cfg, start, trace, r, v) && cfg.Valid()
    requires r.email.Some? ==> Standing(start.entries, Key(Email, r.email.value), r.now - cfg.window) == {}
    ensures v != Refused(Email)
  {
    if trace != [] && !v.Allowed? {
      RefusedAloneKeepsRows(cfg, start, trace, tx);
      ClearIsBelowLimit(cfg, Run(cfg, start, trace[..|trace| - 1]), r);
    }
  }

  /** A success that saw every row leaves none of the account standing. */
  lemma AllSeenAreGone(was: seq<Entry>, after: seq<Entry>, ip: string, email: string, marked: Option<nat>, since: int)
    requires SuccessLeaves(was, after, ip, Some(email), marked, |was|)
    ensures Standing(after, Key(Email, email), since) == {}
  {
  }

  /** Others run, then the reservation takes the step that is why. */
  lemma StepIsCause(cfg: Config, start: State, before: seq<Action>, wait: seq<Action>, a: Action, tx: nat, r: Request,
                    v: Verdict)
    requires Cause(cfg, Run(cfg, Run(cfg, start, before), wait), tx, r, v, a)
    ensures CausedBy(cfg, start, before + (wait + [a]), tx, r, v)
  {
    var mid := Run(cfg, start, before);
    assert (wait + [a])[..|wait|] == wait && (wait + [a])[|wait|] == a;
    CauseLifts(cfg, start, before, wait + [a], tx, r, v);
  }

  /** The next lock is taken. */
  lemma LockTraced(cfg: Config, start: State, before: seq<Action>, wait: seq<Action>, tx: nat, r: Request, i: nat)
    requires OnlyOthers(wait, tx) && Own(before, tx) == [Begin(tx, r)] + Locks(i, tx)
    ensures var trace := before + (wait + [Lock(tx)]);
            && Run(cfg, start, trace) == Run(cfg, Run(cfg, start, before), wait + [Lock(tx)])
            && Own(trace, tx) == [Begin(tx, r)] + Locks(i + 1, tx)
  {
    TraceGrows(cfg, start, before, wait, Lock(tx), tx);
    assert [Begin(tx, r)] + Locks(i, tx) + [Lock(tx)] == [Begin(tx, r)] + Locks(i + 1, tx);
  }

  lemma AbortTraced(cfg: Config, start: State, before: seq<Action>, wait: seq<Action>, tx: nat, r: Request, i: nat)
    requires OnlyOthers(wait, tx) && Own(before, tx) == [Begin(tx, r)] + Locks(i, tx)
    requires LockTaken(cfg, Run(cfg, Run(cfg, start, before), wait), tx, r)
    ensures var trace := before + (wait + [Abort(tx)]);
            && Run(cfg, start, trace) == Run(cfg, Run(cfg, start, before), wait + [Abort(tx)])
            && Commit(tx) !in Own(trace, tx) && CausedBy(cfg, start, trace, tx, r, Failed)
  {
    TraceGrows(cfg, start, before, wait, Abort(tx), tx);
    StepIsCause(cfg, start, before, wait, Abort(tx), tx, r, Failed);
  }

  lemma RefusalTraced(cfg: Config, start: State, before: seq<Action>, wait: seq<Action>, tx: nat, r: Request,
                      scope: Scope)
    requires LimitReached(cfg, Run(cfg, Run(cfg, start, before), wait), tx, r, scope)
    ensures var a := if scope.Email? then CountEmail(tx) else CountAddress(tx);
            CausedBy(cfg, start, before + (wait + [a]), tx, r, Refused(scope))
  {
    var a := if scope.Email? then CountEmail(tx) else CountAddress(tx);
    StepIsCause(cfg, start, before, wait, a, tx, r, Refused(scope));
  }

  /** The locks and then the counts, as one run. */
  lemma OwnJoins(trace: seq<Action>, more: seq<Action>, tx: nat, r: Request, v: Verdict)
    requires Own(trace, tx) == [Begin(tx, r)] + Locks(|r.Keys()|, tx)
    requires if v.Allowed? then Own(more, tx) == Counts(r, tx) + [Commit(tx)] else Commit(tx) !in Own(more, tx)
    ensures if v.Allowed? then Own(trace + more, tx) == Statements(r, tx) else Commit(tx) !in Own(trace + more, tx)
  {
    OwnConcat(trace, more, tx);
  }

  class AuthAttempts {
    const cfg: Config
    var entries: seq<Entry>
    var epochs: map<Key, nat>
    var txs: map<nat, Tx>
    var held: map<int, nat>
    var pruned: Option<int>

    constructor (cfg: Config)
      ensures View() == EMPTY
    {
      this.cfg := cfg;
      entries, epochs, txs, held, pruned := [], map[], map[], map[], None;
    }

    function View(): State
      reads this
    {
      State(entries, epochs, txs, held, pruned)
    }

    /** Other sessions' statements. */
    method Interleave(steps: seq<Action>)
      modifies this
      ensures View() == Run(cfg, old(View()), steps)
    {
      var s := Run(cfg, View(), steps);
      entries, epochs, txs, held, pruned := s.entries, s.epochs, s.txs, s.held, s.pruned;
    }

    /** `count(*)` over the rows still there. */
    method Count(k: Key, since: int) returns (n: nat)
      ensures n == CountIf(entries, Counted(k, since))
    {
      n := 0;
      for i := 0 to |entries|
        invariant n == CountIf(entries[..i], Counted(k, since))
      {
        assert entries[..i + 1][..i] == entries[..i];
        var e := entries[i];
        if e.live && e.key == k && since <= e.at && (k.scope.Email? ==> !e.succeeded) {
          n := n + 1;
        }
      }
      assert entries[..|entries|] == entries;
    }

    /** Commit or rollback: the transaction's locks go with it. */
    method End(tx: nat)
      modifies this`txs, this`held
      ensures View() == Ended(old(View()), tx)
    {
      txs := txs - {tx};
      held := map l | l in held && held[l] != tx :: held[l];
    }

    /** Waits for the next lock while other sessions run, and takes it; or gives the transaction up. */
    method TakeLock(tx: nat, r: Request, i: nat, wait: seq<Action>) returns (ok: bool)
      requires tx in txs && i < |r.Keys()| && txs[tx] == Tx(r, Locking(i)) && OnlyOthers(wait, tx)
      modifies this
      ensures View() == Run(cfg, old(View()), wait + [if ok then Lock(tx) else Abort(tx)])
      ensures if ok then tx in txs && txs[tx] == Tx(r, Locking(i + 1)) else tx !in txs
      ensures !ok ==> LockTaken(cfg, Run(cfg, old(View()), wait), tx, r)
    {
      OthersLeaveTx(cfg, View(), wait, tx);
      RunOne(cfg, View(), wait, Lock(tx));
      RunOne(cfg, View(), wait, Abort(tx));
      Interleave(wait);
      var lock := cfg.hash(r.Keys()[i]);
      ok := !(lock in held && held[lock] != tx);
      if ok {
        held := held[lock := tx];
        txs := txs[tx := Tx(r, Locking(i + 1))];
      } else {
        End(tx);
      }
    }

    /** Counts one key while other sessions run, and refuses or goes on. */
    method CountKey(tx: nat, r: Request, address: bool, wait: seq<Action>) returns (ok: bool)
      requires tx in txs && txs[tx].request == r && r.Valid() && OnlyOthers(wait, tx) && (!address ==> r.email.Some?)
      requires txs[tx].stage == if address then Locking(|r.Keys()|) else AddressPassed
      modifies this
      ensures View() == Run(cfg, old(View()), wait + [if address then CountAddress(tx) else CountEmail(tx)])
      ensures if ok then tx in txs && txs[tx] == Tx(r, if address then AddressPassed else EmailPassed) else tx !in txs
      ensures !ok ==> LimitReached(cfg, Run(cfg, old(View()), wait), tx, r, if address then r.scope else Email)
    {
      OthersLeaveTx(cfg, View(), wait, tx);
      RunOne(cfg, View(), wait, if address then CountAddress(tx) else CountEmail(tx));
      Interleave(wait);
      var k := if address then r.Address() else Key(Email, r.email.value);
      var n := Count(k, r.now - cfg.window);
      ok := n < cfg.Limit(k.scope);
      if ok {
        txs := txs[tx := Tx(r, if address then AddressPassed else EmailPassed)];
      } else {
        End(tx);
      }
    }

    /** The newest rows are the request's. */
    ghost predicate Recorded(r: Request)
      reads this
    {
      && |entries| >= |r.Keys()|
      && forall k :: k in r.Keys() ==>
           exists e :: e in entries[|entries| - |r.Keys()|..] && e.key == k && e.at == r.now && e.live && !e.succeeded
    }

    /** Records the attempt and commits. */
    method Insert(tx: nat, r: Request, wait: seq<Action>)
      requires tx in txs && OnlyOthers(wait, tx)
      requires txs[tx] == Tx(r, if r.email.Some? then EmailPassed else AddressPassed)
      modifies this
      ensures View() == Run(cfg, old(View()), wait + [Commit(tx)])
      ensures Enabled(cfg, Run(cfg, old(View()), wait), Commit(tx))
      ensures tx !in txs && Recorded(r)
    {
      OthersLeaveTx(cfg, View(), wait, tx);
      RunOne(cfg, View(), wait, Commit(tx));
      Interleave(wait);
      var rows := NewRows(View(), r);
      entries := entries + rows;
      End(tx);
      assert entries[|entries| - |r.Keys()|..] == rows;
      forall k | k in r.Keys()
        ensures exists e :: e in rows && e.key == k && e.at == r.now && e.live && !e.succeeded
      {
        assert rows[0].key == r.Address() && rows[0] in rows;
        assert r.email.Some? ==> rows[1].key == Key(Email, r.email.value) && rows[1] in rows;
      }
    }

    /** Takes the next lock in key order. */
    method TakeNext(tx: nat, r: Request, i: nat, wait: seq<Action>, ghost start: State, ghost before: seq<Action>,
                    ghost pool: set<Action>)
      returns (ok: bool, ghost trace: seq<Action>)
      requires tx in txs && i < |r.Keys()| && txs[tx] == Tx(r, Locking(i)) && OnlyOthers(wait, tx)
      requires FromPool(before, tx, pool) && FromPool(wait, tx, pool)
      requires View() == Run(cfg, start, before) && Own(before, tx) == [Begin(tx, r)] + Locks(i, tx)
      modifies this
      ensures View() == Run(cfg, start, trace)
      ensures if ok then tx in txs && txs[tx] == Tx(r, Locking(i + 1)) else tx !in txs
      ensures if ok then Own(trace, tx) == [Begin(tx, r)] + Locks(i + 1, tx)
              else Commit(tx) !in Own(trace, tx) && CausedBy(cfg, start, trace, tx, r, Failed)
      ensures FromPool(trace, tx, pool)
    {
      ok := TakeLock(tx, r, i, wait);
      PoolGrows(before, wait, if ok then Lock(tx) else Abort(tx), tx, pool);
      if ok {
        trace := before + (wait + [Lock(tx)]);
        LockTraced(cfg, start, before, wait, tx, r, i);
      } else {
        trace := before + (wait + [Abort(tx)]);
        AbortTraced(cfg, start, before, wait, tx, r, i);
      }
    }

    /** Begins, and takes the locks in key order. */
    method TakeLocks(tx: nat, r: Request, waits: seq<seq<Action>>, ghost pool: set<Action>)
      returns (ok: bool, ghost trace: seq<Action>)
      requires tx !in txs && r.Valid() && |waits| >= |r.Keys()|
      requires forall w :: w in waits ==> OnlyOthers(w, tx) && FromPool(w, tx, pool)
      modifies this
      ensures View() == Run(cfg, old(View()), trace)
      ensures if ok then tx in txs && txs[tx] == Tx(r, Locking(|r.Keys()|)) else tx !in txs
      ensures if ok then Own(trace, tx) == [Begin(tx, r)] + Locks(|r.Keys()|, tx) else Commit(tx) !in Own(trace, tx)
      ensures !ok ==> CausedBy(cfg, old(View()), trace, tx, r, Failed)
      ensures FromPool(trace, tx, pool)
    {
      ghost var start := View();
      trace := [Begin(tx, r)];
      txs := txs[tx := Tx(r, Locking(0))];
      FirstStep(cfg, start, Begin(tx, r), tx);
      ok := true;
      for i := 0 to |r.Keys()|
        invariant View() == Run(cfg, start, trace) && ok && FromPool(trace, tx, pool)
        invariant tx in txs && txs[tx] == Tx(r, Locking(i)) && Own(trace, tx) == [Begin(tx, r)] + Locks(i, tx)
      {
        ok, trace := TakeNext(tx, r, i, waits[i], start, trace, pool);
        if !ok {
          return;
        }
      }
    }

    /** Counts one key, after `before` of the run. */
    method CountNext(tx: nat, r: Request, address: bool, wait: seq<Action>, ghost start: State,
                     ghost before: seq<Action>, ghost pool: set<Action>)
      returns (ok: bool, ghost trace: seq<Action>)
      requires FromPool(before, tx, pool) && FromPool(wait, tx, pool)
      requires tx in txs && txs[tx].request == r && r.Valid() && OnlyOthers(wait, tx) && (!address ==> r.email.Some?)
      requires txs[tx].stage == if address then Locking(|r.Keys()|) else AddressPassed
      requires View() == Run(cfg, start, before)
      modifies this
      ensures View() == Run(cfg, start, trace)
      ensures Own(trace, tx) == Own(before, tx) + [if address then CountAddress(tx) else CountEmail(tx)]
      ensures if ok then tx in txs && txs[tx] == Tx(r, if address then AddressPassed else EmailPassed) else tx !in txs
      ensures !ok ==> CausedBy(cfg, start, trace, tx, r, Refused(if address then r.scope else Email))
      ensures FromPool(trace, tx, pool)
    {
      ok := CountKey(tx, r, address, wait);
      ghost var a := if address then CountAddress(tx) else CountEmail(tx);
      trace := before + (wait + [a]);
      TraceGrows(cfg, start, before, wait, a, tx);
      PoolGrows(before, wait, a, tx, pool);
      if !ok {
        RefusalTraced(cfg, start, before, wait, tx, r, if address then r.scope else Email);
      }
    }

    /** Counts the address and then the account. */
    method CountKeys(tx: nat, r: Request, wait0: seq<Action>, wait1: seq<Action>, ghost pool: set<Action>)
      returns (v: Verdict, ghost trace: seq<Action>)
      requires tx in txs && txs[tx] == Tx(r, Locking(|r.Keys()|)) && r.Valid()
      requires OnlyOthers(wait0, tx) && OnlyOthers(wait1, tx)
      requires FromPool(wait0, tx, pool) && FromPool(wait1, tx, pool)
      modifies this
      ensures View() == Run(cfg, old(View()), trace) && !v.Failed?
      ensures Own(trace, tx) == [CountAddress(tx)] ||
              Own(trace, tx) == [CountAddress(tx)] + [CountEmail(tx)]
      ensures v.Allowed? ==>
                && Own(trace, tx) == Counts(r, tx)
                && tx in txs && txs[tx] == Tx(r, if r.email.Some? then EmailPassed else AddressPassed)
      ensures v.Refused? ==> tx !in txs && CausedBy(cfg, old(View()), trace, tx, r, v)
      ensures FromPool(trace, tx, pool)
    {
      ghost var start := View();
      var ok;
      ok, trace := CountNext(tx, r, true, wait0, start, [], pool);
      if !ok {
        return Refused(r.scope), trace;
      }
      if r.email.Some? {
        ok, trace := CountNext(tx, r, false, wait1, start, trace, pool);
        if !ok {
          return Refused(Email), trace;
        }
      }
      v := Allowed;
    }

    /** Counts both keys, then records the attempt. */
    method CountAndInsert(tx: nat, r: Request, wait0: seq<Action>, wait1: seq<Action>, wait2: seq<Action>,
                          ghost pool: set<Action>)
      returns (v: Verdict, ghost trace: seq<Action>)
      requires tx in txs && txs[tx] == Tx(r, Locking(|r.Keys()|)) && r.Valid()
      requires OnlyOthers(wait0, tx) && OnlyOthers(wait1, tx) && OnlyOthers(wait2, tx)
      requires FromPool(wait0, tx, pool) && FromPool(wait1, tx, pool) && FromPool(wait2, tx, pool)
      modifies this
      ensures View() == Run(cfg, old(View()), trace) && tx !in txs
      ensures v.Allowed? ==> Own(trace, tx) == Counts(r, tx) + [Commit(tx)] && Recorded(r)
      ensures !v.Allowed? ==> Commit(tx) !in Own(trace, tx)
      ensures CausedBy(cfg, old(View()), trace, tx, r, v)
      ensures FromPool(trace, tx, pool)
    {
      ghost var start := View();
      v, trace := CountKeys(tx, r, wait0, wait1, pool);
      if v.Allowed? {
        Insert(tx, r, wait2);
        TraceGrows(cfg, start, trace, wait2, Commit(tx), tx);
        StepIsCause(cfg, start, trace, wait2, Commit(tx), tx, r, v);
        PoolGrows(trace, wait2, Commit(tx), tx, pool);
        trace := trace + (wait2 + [Commit(tx)]);
      }
    }

    /**
     * One reservation, other sessions running before each of its statements. `trace` is everything that ran; its own
     * part says how far it got, and its last step why it got no further: admitted after every statement, refused by the
     * count that found a limit reached, or failed at a lock another transaction held.
     */
    method Reserve(tx: nat, r: Request, waits: seq<seq<Action>>) returns (v: Verdict, ghost trace: seq<Action>)
      requires tx !in txs && r.Valid() && |waits| == 5 && forall w :: w in waits ==> OnlyOthers(w, tx)
      modifies this
      ensures View() == Run(cfg, old(View()), trace) && tx !in txs
      ensures v.Allowed? ==> Own(trace, tx) == Statements(r, tx) && Recorded(r)
      ensures CausedBy(cfg, old(View()), trace, tx, r, v)
      ensures !v.Allowed? ==> Commit(tx) !in Own(trace, tx)
      ensures RefusedAtLimit(cfg, old(View()), trace, r, v)
      ensures FromPool(trace, tx, Pool(waits))
    {
      ghost var start, pool := View(), Pool(waits);
      var ok;
      ok, trace := TakeLocks(tx, r, waits, pool);
      if !ok {
        return Failed, trace;
      }
      ghost var more;
      v, more := CountAndInsert(tx, r, waits[2], waits[3], waits[4], pool);
      PoolJoins(trace, more, tx, pool);
      RunConcat(cfg, start, trace, more);
      OwnJoins(trace, more, tx, r, v);
      CauseLifts(cfg, start, trace, more, tx, r, v);
      trace := trace + more;
      RefusalCounts(cfg, start, trace, tx, r, v);
    }

    /** The two statements of a success take effect. */
    method CommitSuccess(ip: string, email: Option<string>, picked: Option<nat>, seen: nat)
      requires Enabled(cfg, View(), Action.MarkSucceeded(ip, email, picked, seen))
      modifies this`entries, this`epochs
      ensures View() == Apply(cfg, old(View()), Action.MarkSucceeded(ip, email, picked, seen))
    {
      if picked.Some? {
        entries := entries[picked.value := entries[picked.value].(succeeded := true)];
      }
      if email.Some? {
        var k := Key(Email, email.value);
        entries := seq(|entries|, i requires 0 <= i < |entries| reads this =>
                         if i < seen && entries[i].key == k then entries[i].(live := false) else entries[i]);
        epochs := epochs[k := Epoch(View(), k) + 1];
      }
    }

    /**
     * One success, other sessions running between its statements: the first finds and marks the address's latest
     * failure, the second deletes the account's rows it sees, and both take effect at the commit.
     */
    method MarkSucceeded(ip: string, email: Option<string>, now: int, wait0: seq<Action>, wait1: seq<Action>)
      returns (ghost marked: Option<nat>)
      modifies this
      ensures IsLatest(old(entries), ip, now, marked)
      ensures var mid := Run(cfg, old(View()), wait0);
              SuccessLeaves(Run(cfg, mid, wait1).entries, entries, ip, email, marked, |mid.entries|)
      ensures var mid := Run(cfg, old(View()), wait0);
              var last, picked := Run(cfg, mid, wait1), LatestFailure(old(entries), Key(Ip, ip), now);
              && Enabled(cfg, last, Action.MarkSucceeded(ip, email, picked, |mid.entries|))
              && View() == Apply(cfg, last, Action.MarkSucceeded(ip, email, picked, |mid.entries|))
    {
      ghost var start := View();
      var picked := LatestFailure(entries, Key(Ip, ip), now);
      LatestIsLatest(entries, Key(Ip, ip), now);
      PickedIsLatest(entries, ip, now);
      RunGrows(cfg, start, wait0);
      Interleave(wait0);
      var seen := |entries|;
      RunGrows(cfg, View(), wait1);
      Interleave(wait1);
      SuccessClears(cfg, View(), ip, email, picked, seen);
      CommitSuccess(ip, email, picked, seen);
      marked := picked;
    }

    /** A sign-in straight after a success, nobody else about, is not refused for the account. */
    method ReserveAfterSuccess(tx: nat, r: Request, ip: string, email: string, now: int) returns (v: Verdict)
      requires tx !in txs && r.Valid() && r.email == Some(email) && cfg.Valid()
      modifies this
      ensures v != Refused(Email)
    {
      ghost var before, marked, trace := entries, None, [];
      marked := MarkSucceeded(ip, Some(email), now, [], []);
      ghost var start := View();
      AllSeenAreGone(before, entries, ip, email, marked, r.now - cfg.window);
      v, trace := Reserve(tx, r, [[], [], [], [], []]);
      ClearAccountIsAdmitted(cfg, start, trace, tx, r, v);
    }

    method PruneBefore(clock: int) returns (count: nat)
      modifies this
      ensures View() == Apply(cfg, old(View()), Prune(clock))
      ensures count == CountIf(old(entries), (e: Entry) => e.live && e.at < clock - cfg.retention)
      ensures |entries| == |old(entries)| && forall i :: 0 <= i < |entries| ==>
                var e := old(entries)[i]; entries[i] == e.(live := e.live && clock - cfg.retention <= e.at)
    {
      count := 0;
      var cutoff := clock - cfg.retention;
      var kept := [];
      for i := 0 to |entries|
        invariant |kept| == i && entries == old(entries)
        invariant forall j :: 0 <= j < i ==>
                    kept[j] == if entries[j].at < cutoff then entries[j].(live := false) else entries[j]
        invariant count == CountIf(entries[..i], (e: Entry) => e.live && e.at < clock - cfg.retention)
      {
        assert entries[..i + 1][..i] == entries[..i];
        var e := entries[i];
        if e.live && e.at < cutoff {
          count := count + 1;
        }
        kept := kept + [if e.at < cutoff then e.(live := false) else e];
      }
      assert entries[..|entries|] == entries;
      entries := kept;
      pruned := Some(if pruned.Some? && pruned.value > clock then pruned.value else clock);
    }
  }

  lemma FirstStep(cfg: Config, s: State, a: Action, tx: nat)
    requires Mentions(a, tx)
    ensures Run(cfg, s, [a]) == Step(cfg, s, a) && Own([a], tx) == [a]
  {
    RunOne(cfg, s, [], a);
    assert [] + [a] == [a] && [a][..0] == [];
  }

  /** Others run, then the transaction takes a step. */
  lemma TraceGrows(cfg: Config, s: State, trace: seq<Action>, wait: seq<Action>, a: Action, tx: nat)
    requires OnlyOthers(wait, tx) && Mentions(a, tx)
    ensures Run(cfg, s, trace + (wait + [a])) == Run(cfg, Run(cfg, s, trace), wait + [a])
    ensures Own(trace + (wait + [a]), tx) == Own(trace, tx) + [a]
  {
    RunConcat(cfg, s, trace, wait + [a]);
    OwnConcat(trace, wait + [a], tx);
    OwnConcat(wait, [a], tx);
    OwnConcat([], wait, tx);
    FirstStep(cfg, s, a, tx);
  }
}
