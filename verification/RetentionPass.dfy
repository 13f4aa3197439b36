/**
 * One retention pass that leaves a gap: the detach of the older of two minute partitions gives up before it has marked
 * anything, the detach of the newer one after, and a window of the newer one's day is then answered wrongly.
 */
module RetentionPass {
  import opened Calendar
  import opened Aggregate
  import opened Warehouse
  import opened RollupRepository
  import opened PartitionHistory
  import opened RetentionGap
  import opened RetentionService
  import Window

  /** The scene before that pass: all four partitions live. */
  function BeforeGap(t: int): map<Part, PartState> { AllAttached(GapParts(t).Keys) }

  /** The script of the two detaches: the older one's gives up before marking it, the newer one's after. */
  function GapScript(): seq<RetentionService.Outcome> { [TimedOut(false), TimedOut(true)] }

  /** That scene is reached, with both minute partitions past their retention. */
  lemma ReachesBeforeGap(cfg: Config, row: Row) returns (steps: seq<Action>, db: Db)
    requires cfg.Valid() && FIRST + DAY <= row.startedAt && row.xid == 0
    ensures Run(cfg, Empty(row.startedAt), steps) == db && HasFolded(db, row, BeforeGap(row.startedAt)) && Inv(cfg, db)
    ensures forall p :: p in db.parts ==> Expired(cfg, p, db.clock)
  {
    GapScene(row);
    var s := Scene(row, GapParts(row.startedAt).Keys);
    var stats, later;
    steps, stats, later := WaitForAll(cfg, s);
    db := Late(s, stats, later, {}, AllAttached(s.keys));
    LateIsFolded(s, stats, later, {}, AllAttached(s.keys));
    ReachableInv(cfg, Empty(row.startedAt), steps);
  }

  lemma LateIsFolded(s: Scene, stats: map<Key, Stat>, later: int, cleared: set<Part>, parts: map<Part, PartState>)
    ensures HasFolded(Late(s, stats, later, cleared, parts), s.row, parts)
    ensures Late(s, stats, later, cleared, parts).clock == later
  {
  }

  /** The first two attempts that are not kept back end as the script says. */
  lemma ScriptedPair(result: RetentionResult, log: seq<Attempt>, script: seq<RetentionService.Outcome>)
    requires LogSays(result, log, GapScript(), script, [])
    requires 1 <= |log| <= 2 && forall a :: a in log ==> a.Detaching? || a.Dropping?
    ensures log[0] == Detaching(log[0].part, TimedOut(false))
    ensures |log| == 2 ==> log[1] == Detaching(log[1].part, TimedOut(true))
  {
    var ends := AllEnds(log);
    assert ends + [] == ends;
    assert log[0] in log;
    FirstEnd(log);
    if |log| == 2 {
      assert log[1] in log;
      SecondEnd(log);
    }
  }

  lemma OneEnd(a: Attempt)
    ensures AllEnds([a]) == a.Ends()
  {
    assert [a][..0] == [] && [a][0] == a;
  }

  lemma TwoEnds(a: Attempt, b: Attempt)
    ensures AllEnds([a, b]) == a.Ends() + b.Ends()
  {
    OneEnd(a);
    LogOneMore([a], b);
    assert [a] + [b] == [a, b];
  }

  lemma FirstEnd(log: seq<Attempt>)
    requires 1 <= |log| <= 2 && log[0].Ends() != []
    ensures AllEnds(log) != [] && AllEnds(log)[0] == log[0].Ends()[0]
  {
    if |log| == 2 {
      TwoEnds(log[0], log[1]);
      assert log == [log[0], log[1]];
    } else {
      OneEnd(log[0]);
      assert log == [log[0]];
    }
  }

  lemma SecondEnd(log: seq<Attempt>)
    requires |log| == 2 && |log[0].Ends()| == 1 && log[1].Ends() != []
    ensures |AllEnds(log)| >= 2 && AllEnds(log)[1] == log[1].Ends()[0]
  {
    TwoEnds(log[0], log[1]);
    assert log == [log[0], log[1]];
  }

  /** Attempts on two partitions, neither of which its guard kept. */
  ghost predicate Pair(p: Part, q: Part, log: seq<Attempt>) {
    && OldestFirst(log) && (forall i :: 0 <= i < |log| ==> log[i].part == p || log[i].part == q)
    && (forall a :: a in log ==> a.Detaching? || a.Dropping?)
  }

  /** Both were attempted, unless the last attempt was fatal. */
  ghost predicate PairDone(p: Part, q: Part, after: map<Part, PartState>, log: seq<Attempt>, lost: bool) {
    if lost then log != [] && log[|log| - 1].Fatal()
    else
      && (exists a :: a in log && Answers(a, p, Attached, after))
      && (exists a :: a in log && Answers(a, q, Attached, after))
  }

  lemma ThirdPart(p: Part, q: Part, log: seq<Attempt>) returns (i: nat)
    requires OldestFirst(log) && |log| > 2
    ensures i < |log| && log[i].part != p && log[i].part != q
  {
    i := if log[0].part != p && log[0].part != q then 0 else if log[1].part != p && log[1].part != q then 1 else 2;
  }

  lemma AtMostTwo(p: Part, q: Part, log: seq<Attempt>)
    requires OldestFirst(log) && forall i :: 0 <= i < |log| ==> log[i].part == p || log[i].part == q
    ensures |log| <= 2
  {
    if |log| > 2 {
      var i := ThirdPart(p, q, log);
    }
  }

  lemma BothAttempted(p: Part, q: Part, after: map<Part, PartState>, log: seq<Attempt>)
    requires Pair(p, q, log) && PairDone(p, q, after, log, false) && p.lo < q.lo
    ensures |log| == 2 && log[0].part == p && log[1].part == q
    ensures Left(log[0], Attached, after) && Left(log[1], Attached, after)
  {
    AtMostTwo(p, q, log);
    var a :| a in log && Answers(a, p, Attached, after);
    var b :| b in log && Answers(b, q, Attached, after);
  }

  /** Neither detach ends the pass, and they leave the older partition live and the newer one pending. */
  lemma PairLeaves(p: Part, q: Part, after: map<Part, PartState>, log: seq<Attempt>, lost: bool,
                   result: RetentionResult, script: seq<RetentionService.Outcome>)
    requires Pair(p, q, log) && PairDone(p, q, after, log, lost) && p.lo < q.lo
    requires LogSays(result, log, GapScript(), script, [])
    ensures !lost && InState(after, p, Attached) && InState(after, q, Pending)
  {
    AtMostTwo(p, q, log);
    if !lost {
      BothAttempted(p, q, after, log);
    }
    ScriptedPair(result, log, script);
  }

  /** A folded row keeps no partition back. */
  lemma FoldedKeepsNothing(cfg: Config, start: Db, steps: seq<Action>, row: Row, parts: map<Part, PartState>, p: Part)
    requires Inv(cfg, start) && row.xid == 0 && start.lastXid == 1 && HasFolded(Run(cfg, start, steps), row, parts)
    ensures !WasBlocked(cfg, start, steps, p)
  {
    if WasBlocked(cfg, start, steps, p) {
      BlockedForCause(cfg, start, steps, p);
    }
  }

  /** All partitions live, two of them of the minute family. */
  ghost predicate LivePair(was: map<Part, PartState>, p: Part, q: Part) {
    && p in was && q in was && p.family == q.family == MinuteStats
    && forall x :: x in was ==> was[x] == Attached && (x.family == MinuteStats ==> x == p || x == q)
  }

  lemma GapIsLivePair(t: int)
    ensures LivePair(BeforeGap(t), PartOf(MinuteStats, t - DAY), PartOf(MinuteStats, t))
  {
    GapKeys(t);
    TwoOfFour(PartOf(Raw, t), PartOf(HourStats, t), PartOf(MinuteStats, t - DAY), PartOf(MinuteStats, t));
  }

  lemma GapKeys(t: int)
    ensures GapParts(t).Keys
         == {PartOf(Raw, t), PartOf(HourStats, t), PartOf(MinuteStats, t - DAY), PartOf(MinuteStats, t)}
  {
  }

  lemma TwoOfFour(raw: Part, hours: Part, p: Part, q: Part)
    requires raw.family == Raw && hours.family == HourStats && p.family == q.family == MinuteStats
    ensures LivePair(AllAttached({raw, hours, p, q}), p, q)
  {
  }

  /** An attempt of the pass is on one of the two, in the phase of live ones. */
  lemma OnlyLivePhase(cfg: Config, now: int, p: Part, q: Part, was: map<Part, PartState>, after: map<Part, PartState>,
                      i: nat, phase: seq<Attempt>)
    requires i < 3 && Belongs(cfg, MinuteStats, now, was, after, i, phase)
    requires after.Keys == was.Keys && LivePair(was, p, q)
    ensures if i == 1 then forall a :: a in phase ==> (a.part == p || a.part == q) && !a.Leftover? else phase == []
  {
    if phase != [] {
      assert phase[0] in phase;
    }
  }

  lemma OnlySecond(phases: seq<seq<Attempt>>, log: seq<Attempt>)
    requires |phases| == 3 && log == phases[0] + phases[1] + phases[2] && phases[0] == [] && phases[2] == []
    ensures log == phases[1]
  {
  }

  lemma PassIsPair(cfg: Config, now: int, p: Part, q: Part, before: Db, after: Db, phases: seq<seq<Attempt>>,
                   log: seq<Attempt>, lost: bool)
    requires Passed(cfg, MinuteStats, now, before, after, phases, log, lost, true) && LivePair(before.parts, p, q)
    requires forall a :: a in log ==> !a.Kept?
    ensures Pair(p, q, log)
  {
    OnlyLivePhase(cfg, now, p, q, before.parts, after.parts, 0, phases[0]);
    OnlyLivePhase(cfg, now, p, q, before.parts, after.parts, 1, phases[1]);
    OnlyLivePhase(cfg, now, p, q, before.parts, after.parts, 2, phases[2]);
    OnlySecond(phases, log);
    forall i | 0 <= i < |log|
      ensures log[i].part == p || log[i].part == q
    {
      assert log[i] in log;
    }
  }

  lemma SettledAnswers(cfg: Config, p: Part, now: int, parts: map<Part, PartState>, log: seq<Attempt>)
    requires Expired(cfg, p, now) && Settled(cfg, p, Attached, now, parts, log)
    ensures exists a :: a in log && Answers(a, p, Attached, parts)
  {
  }

  lemma PassIsDone(cfg: Config, now: int, p: Part, q: Part, before: Db, after: Db, phases: seq<seq<Attempt>>,
                   log: seq<Attempt>, lost: bool)
    requires Passed(cfg, MinuteStats, now, before, after, phases, log, lost, true) && LivePair(before.parts, p, q)
    requires Expired(cfg, p, now) && Expired(cfg, q, now)
    ensures PairDone(p, q, after.parts, log, lost)
  {
    if !lost {
      SettledAnswers(cfg, p, now, after.parts, log);
      SettledAnswers(cfg, q, now, after.parts, log);
    }
  }

  /** Other families' partitions stand. */
  ghost predicate SparesOthers(was: map<Part, PartState>, after: map<Part, PartState>) {
    after.Keys == was.Keys && forall x :: x in was && x.family != MinuteStats ==> after[x] == was[x]
  }

  lemma PassSpares(cfg: Config, now: int, before: Db, after: Db, phases: seq<seq<Attempt>>, log: seq<Attempt>,
                   lost: bool)
    requires Passed(cfg, MinuteStats, now, before, after, phases, log, lost, true)
    ensures SparesOthers(before.parts, after.parts)
  {
  }

  lemma OnlyOneMoved(p: Part, q: Part, was: map<Part, PartState>, after: map<Part, PartState>)
    requires LivePair(was, p, q) && p != q && SparesOthers(was, after)
    requires InState(after, p, Attached) && InState(after, q, Pending)
    ensures after == was[q := Pending]
  {
    forall x | x in was
      ensures after[x] == was[q := Pending][x]
    {
      assert x.family == MinuteStats ==> x == p || x == q;
    }
  }

  /** A pass that goes by the script leaves the older partition live and the newer one pending. */
  lemma ScriptedPassLeaves(cfg: Config, now: int, p: Part, q: Part, before: Db, after: Db, phases: seq<seq<Attempt>>,
                           log: seq<Attempt>, lost: bool, result: RetentionResult,
                           script: seq<RetentionService.Outcome>)
    requires Passed(cfg, MinuteStats, now, before, after, phases, log, lost, true) && LivePair(before.parts, p, q)
    requires p.lo < q.lo && Expired(cfg, p, now) && Expired(cfg, q, now) && forall a :: a in log ==> !a.Kept?
    requires LogSays(result, log, GapScript(), script, [])
    ensures after.parts == before.parts[q := Pending]
  {
    PassIsPair(cfg, now, p, q, before, after, phases, log, lost);
    PassIsDone(cfg, now, p, q, before, after, phases, log, lost);
    PairLeaves(p, q, after.parts, log, lost, result, script);
    PassSpares(cfg, now, before, after, phases, log, lost);
    OnlyOneMoved(p, q, before.parts, after.parts);
  }

  lemma PendingIsGap(t: int)
    requires FIRST + DAY <= t
    ensures BeforeGap(t)[PartOf(MinuteStats, t) := Pending] == GapParts(t)
  {
    OlderPart(t);
  }

  /** Nobody else acted, so the result and the watermark are as they were. */
  lemma AloneKeepsFolded(before: Db, after: Db, row: Row, parts: map<Part, PartState>)
    requires HasFolded(before, row, parts) && Alone(before, after)
    ensures HasFolded(after, row, after.parts)
  {
  }

  lemma NothingKept(cfg: Config, start: Db, steps: seq<Action>, row: Row, result: RetentionResult, log: seq<Attempt>)
    requires Inv(cfg, start) && row.xid == 0 && start.lastXid == 1
    requires HasFolded(Run(cfg, start, steps), row, Run(cfg, start, steps).parts)
    requires result == ResultOf(log) && forall p :: p in result.blocked ==> WasBlocked(cfg, start, steps, p)
    ensures forall a :: a in log ==> !a.Kept?
  {
    forall a | a in log
      ensures !a.Kept?
    {
      FoldedKeepsNothing(cfg, start, steps, row, Run(cfg, start, steps).parts, a.part);
      ReportedForCause(log, a.part);
    }
  }

  /**
   * One pass over the minute family, oldest first and with nobody else about: it starts from a scene that is reached
   * (`ReachesBeforeGap`), ends in the gap, and the window of the result's minute passes both checks and is answered
   * wrongly.
   */
  method GapPass(db: Database, row: Row, now: int)
    requires Inv(db.cfg, db.View()) && FIRST + DAY <= row.startedAt && row.xid == 0
    requires HasFolded(db.View(), row, BeforeGap(row.startedAt))
    requires now <= db.clock && forall p :: p in db.parts ==> Expired(db.cfg, p, now)
    modifies db
    ensures HasFolded(db.View(), row, GapParts(row.startedAt))
    ensures AnsweredWrongly(db.View(), row.endpoint, row.startedAt, GapRetained(row.startedAt))
  {
    ghost var t, before := row.startedAt, db.View();
    var pass := new Retention(db, GapScript(), []);
    var lost;
    ghost var phases;
    lost, phases := pass.RunFamily(MinuteStats, now);
    ghost var after := db.View();
    AloneKeepsFolded(before, after, row, BeforeGap(t));
    NothingKept(db.cfg, before, pass.trace, row, pass.result, pass.log);
    GapIsLivePair(t);
    OlderPart(t);
    ScriptedPassLeaves(db.cfg, now, PartOf(MinuteStats, t - DAY), PartOf(MinuteStats, t), before, after, phases,
                       pass.log, lost, pass.result, pass.script);
    PendingIsGap(t);
    GapIsWrong(row, after);
  }
}
