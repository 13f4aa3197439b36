/**
 * The sliding-window limiter: reservations under advisory locks, successes and pruning, statement by statement, with
 * timestamps captured before the locks are taken.
 */
module RateLimiter {
  import opened Wrappers

  datatype Scope = Ip | Register | Email

  /** What is counted, and what is locked. */
  datatype Key = Key(scope: Scope, name: string)

  /**
   * `hash` is `hashtext`. `window`, `retention` and the instants are milliseconds; `skew` is how far a pruning clock
   * may run ahead of a reservation's own `now`.
   */
  datatype Config = Config(window: nat, retention: nat, skew: int, maxPerIp: nat, maxRegistrations: nat,
                           maxFailures: nat, hash: Key -> int)
  {
    function Limit(scope: Scope): nat {
      match scope
      case Ip => maxPerIp
      case Register => maxRegistrations
      case Email => maxFailures
    }

    predicate Valid() { maxPerIp >= 1 && maxRegistrations >= 1 && maxFailures >= 1 }
  }

  /**
   * A row of `auth_attempts`. A deleted row is kept with `live` false, so the sequence is every attempt ever admitted;
   * `epoch` counts the account's successes before it.
   */
  datatype Entry = Entry(key: Key, at: int, epoch: nat, succeeded: bool, live: bool)

  datatype Request = Request(scope: Scope, ip: string, email: Option<string>, now: int)
  {
    predicate Valid() { !scope.Email? }

    function Address(): Key { Key(scope, ip) }

    /** In the order the locks are taken: `email:` sorts before `ip:` and `register:`. */
    function Keys(): seq<Key> {
      if email.Some? then [Key(Email, email.value), Address()] else [Address()]
    }
  }

  /** How far a reservation's transaction has got. */
  datatype Stage = Locking(got: nat) | AddressPassed | EmailPassed

  datatype Tx = Tx(request: Request, stage: Stage)

  /** `pruned` is the greatest clock a sweep has run at. */
  datatype State = State(entries: seq<Entry>, epochs: map<Key, nat>, txs: map<nat, Tx>, held: map<int, nat>,
                         pruned: Option<int>)

  /**
   * A success takes effect at its commit: `picked` is the row its first statement found to mark, `seen` how many rows
   * its second statement saw. Rows committed since are not deleted with the others.
   */
  datatype Action =
    | Begin(tx: nat, request: Request)
    | Lock(tx: nat)
    | CountAddress(tx: nat)
    | CountEmail(tx: nat)
    | Commit(tx: nat)
    | Abort(tx: nat)
    | MarkSucceeded(ip: string, email: Option<string>, picked: Option<nat>, seen: nat)
    | Prune(clock: int)

  // ---- Counting ----

  function CountIf(s: seq<Entry>, p: Entry -> bool): nat {
    if s == [] then 0 else CountIf(s[..|s| - 1], p) + if p(s[|s| - 1]) then 1 else 0
  }

  lemma {:induction false} CountMonotone(s: seq<Entry>, t: seq<Entry>, p: Entry -> bool, q: Entry -> bool)
    requires |s| == |t| && forall i :: 0 <= i < |s| && p(s[i]) ==> q(t[i])
    ensures CountIf(s, p) <= CountIf(t, q)
  {
    if s != [] {
      CountMonotone(s[..|s| - 1], t[..|t| - 1], p, q);
    }
  }

  lemma {:induction false} CountConcat(s: seq<Entry>, t: seq<Entry>, p: Entry -> bool)
    ensures CountIf(s + t, p) == CountIf(s, p) + CountIf(t, p)
  {
    if t == [] {
      assert s + t == s;
    } else {
      assert (s + t)[..|s + t| - 1] == s + t[..|t| - 1];
      CountConcat(s, t[..|t| - 1], p);
    }
  }

  function Epoch(s: State, k: Key): nat { if k in s.epochs then s.epochs[k] else 0 }

  /** What `count` reads: rows still there, since an instant; for an account only failures. */
  function Counted(k: Key, since: int): Entry -> bool {
    (e: Entry) => e.live && e.key == k && since <= e.at && (k.scope.Email? ==> !e.succeeded)
  }

  /** Attempts of one key and epoch since an instant, deleted or not. */
  function Recent(k: Key, epoch: nat, since: int): Entry -> bool {
    (e: Entry) => e.key == k && e.epoch == epoch && since <= e.at
  }

  function InWindow(k: Key, epoch: nat, from: int, to: int): Entry -> bool {
    (e: Entry) => e.key == k && e.epoch == epoch && from <= e.at <= to
  }

  function RecentCount(entries: seq<Entry>, k: Key, epoch: nat, since: int): nat {
    CountIf(entries, Recent(k, epoch, since))
  }

  /** Admitted attempts of one key and epoch in the closed window of length `window` from `from`. */
  function WindowCount(entries: seq<Entry>, k: Key, epoch: nat, from: int, window: nat): nat {
    CountIf(entries, InWindow(k, epoch, from, from + window))
  }

  // ---- Steps ----

  predicate Free(s: State, lock: int, tx: nat) { lock !in s.held || s.held[lock] == tx }

  function Since(cfg: Config, r: Request): int { r.now - cfg.window }

  predicate Locked(t: Tx) { t.stage.Locking? && t.stage.got == |t.request.Keys()| }

  predicate Enabled(cfg: Config, s: State, a: Action) {
    match a
    case Begin(tx, r) => tx !in s.txs && r.Valid()
    case Lock(tx) =>
      && tx in s.txs && s.txs[tx].stage.Locking? && s.txs[tx].stage.got < |s.txs[tx].request.Keys()|
      && Free(s, cfg.hash(s.txs[tx].request.Keys()[s.txs[tx].stage.got]), tx)
    case CountAddress(tx) => tx in s.txs && Locked(s.txs[tx])
    case CountEmail(tx) => tx in s.txs && s.txs[tx].stage.AddressPassed? && s.txs[tx].request.email.Some?
    case Commit(tx) =>
      && tx in s.txs
      && if s.txs[tx].request.email.Some? then s.txs[tx].stage.EmailPassed? else s.txs[tx].stage.AddressPassed?
    case Abort(tx) => tx in s.txs
    case MarkSucceeded(ip, _, picked, seen) =>
      && seen <= |s.entries|
      && (picked.Some? ==> picked.value < |s.entries| && s.entries[picked.value].key == Key(Ip, ip))
    case Prune(_) => true
  }

  /** The transaction ends and its locks go. */
  function Ended(s: State, tx: nat): State {
    s.(txs := s.txs - {tx}, held := map l | l in s.held && s.held[l] != tx :: s.held[l])
  }

  function Passed(s: State, tx: nat, stage: Stage): State
    requires tx in s.txs
  {
    s.(txs := s.txs[tx := s.txs[tx].(stage := stage)])
  }

  function NewRow(s: State, k: Key, now: int): Entry { Entry(k, now, Epoch(s, k), false, true) }

  function NewRows(s: State, r: Request): seq<Entry> {
    [NewRow(s, r.Address(), r.now)] + if r.email.Some? then [NewRow(s, Key(Email, r.email.value), r.now)] else []
  }

  predicate IsFailure(e: Entry, k: Key, now: int) { e.live && e.key == k && !e.succeeded && e.at <= now }

  /** The latest failed attempt of an address up to `now`, by time and then by insertion. */
  function LatestFailure(entries: seq<Entry>, k: Key, now: int): (latest: Option<nat>)
    ensures latest.Some? ==> latest.value < |entries|
  {
    if entries == [] then None
    else
      var n := |entries| - 1;
      var rest := LatestFailure(entries[..n], k, now);
      if IsFailure(entries[n], k, now) && (rest.None? || entries[rest.value].at <= entries[n].at) then Some(n) else rest
  }

  function Promoted(entries: seq<Entry>, picked: Option<nat>): seq<Entry>
    requires picked.Some? ==> picked.value < |entries|
  {
    match picked
    case Some(i) => entries[i := entries[i].(succeeded := true)]
    case None => entries
  }

  /** The rows of a key among the first `seen` are deleted. */
  function Cleared(entries: seq<Entry>, k: Key, seen: nat): seq<Entry> {
    seq(|entries|, i requires 0 <= i < |entries| =>
      if i < seen && entries[i].key == k then entries[i].(live := false) else entries[i])
  }

  function Deleted(entries: seq<Entry>, gone: Entry -> bool): seq<Entry> {
    seq(|entries|, i requires 0 <= i < |entries| => if gone(entries[i]) then entries[i].(live := false) else entries[i])
  }

  function Apply(cfg: Config, s: State, a: Action): State
    requires Enabled(cfg, s, a)
  {
    match a
    case Begin(tx, r) => s.(txs := s.txs[tx := Tx(r, Locking(0))])
    case Lock(tx) =>
      var t := s.txs[tx];
      Passed(s.(held := s.held[cfg.hash(t.request.Keys()[t.stage.got]) := tx]), tx, Locking(t.stage.got + 1))
    case CountAddress(tx) =>
      var r := s.txs[tx].request;
      if CountIf(s.entries, Counted(r.Address(), Since(cfg, r))) >= cfg.Limit(r.scope) then Ended(s, tx)
      else Passed(s, tx, AddressPassed)
    case CountEmail(tx) =>
      var r := s.txs[tx].request;
      if CountIf(s.entries, Counted(Key(Email, r.email.value), Since(cfg, r))) >= cfg.maxFailures then Ended(s, tx)
      else Passed(s, tx, EmailPassed)
    case Commit(tx) => Ended(s.(entries := s.entries + NewRows(s, s.txs[tx].request)), tx)
    case Abort(tx) => Ended(s, tx)
    case MarkSucceeded(_, email, picked, seen) =>
      var entries := Promoted(s.entries, picked);
      if email.None? then s.(entries := entries)
      else
        var k := Key(Email, email.value);
        s.(entries := Cleared(entries, k, seen), epochs := s.epochs[k := Epoch(s, k) + 1])
    case Prune(clock) =>
      s.(entries := Deleted(s.entries, (e: Entry) => e.at < clock - cfg.retention),
         pruned := Some(if s.pruned.Some? && s.pruned.value > clock then s.pruned.value else clock))
  }

  function Step(cfg: Config, s: State, a: Action): State {
    if Enabled(cfg, s, a) then Apply(cfg, s, a) else s
  }

  function Run(cfg: Config, s: State, steps: seq<Action>): State {
    if steps == [] then s else Step(cfg, Run(cfg, s, steps[..|steps| - 1]), steps[|steps| - 1])
  }

  const EMPTY := State([], map[], map[], map[], None)

  /** No sweep so far has run more than `skew` ahead of a reservation that is about to count. */
  predicate Punctual(cfg: Config, s: State, a: Action) {
    (a.CountAddress? || a.CountEmail?) && a.tx in s.txs && s.pruned.Some? ==>
      s.pruned.value <= s.txs[a.tx].request.now + cfg.skew
  }

  ghost predicate PunctualRun(cfg: Config, s: State, steps: seq<Action>) {
    steps == [] ||
    (PunctualRun(cfg, s, steps[..|steps| - 1]) && Punctual(cfg, Run(cfg, s, steps[..|steps| - 1]), steps[|steps| - 1]))
  }

  // ---- What every step keeps ----

  /** A transaction holds the locks it has taken. */
  ghost predicate LockInv(cfg: Config, s: State) {
    forall tx, i :: tx in s.txs && 0 <= i < Got(s.txs[tx]) ==> Holds(cfg, s, tx, s.txs[tx].request.Keys()[i])
  }

  function Got(t: Tx): nat {
    if t.stage.Locking? && t.stage.got < |t.request.Keys()| then t.stage.got else |t.request.Keys()|
  }

  predicate Holds(cfg: Config, s: State, tx: nat, k: Key) {
    cfg.hash(k) in s.held && s.held[cfg.hash(k)] == tx
  }

  /** A row of an epoch still running is deleted only by pruning. */
  ghost predicate LiveInv(cfg: Config, s: State) {
    forall e :: e in s.entries ==> EntryInv(cfg, s, e)
  }

  ghost predicate EntryInv(cfg: Config, s: State, e: Entry) {
    && e.epoch <= Epoch(s, e.key)
    && (e.key.scope.Email? ==> !e.succeeded)
    && (e.epoch == Epoch(s, e.key) && !e.live ==> s.pruned.Some? && e.at < s.pruned.value - cfg.retention)
  }

  ghost predicate RoomLeft(cfg: Config, s: State, k: Key, since: int) {
    RecentCount(s.entries, k, Epoch(s, k), since) < cfg.Limit(k.scope)
  }

  /** A transaction past a count still has the room it counted. */
  ghost predicate PassedInv(cfg: Config, s: State) {
    forall tx :: tx in s.txs ==> TxInv(cfg, s, s.txs[tx])
  }

  ghost predicate TxInv(cfg: Config, s: State, t: Tx) {
    && t.request.Valid()
    && (t.stage.AddressPassed? || t.stage.EmailPassed? ==> RoomLeft(cfg, s, t.request.Address(), Since(cfg, t.request)))
    && (t.stage.EmailPassed? ==> t.request.email.Some?
                                 && RoomLeft(cfg, s, Key(Email, t.request.email.value), Since(cfg, t.request)))
  }

  /** No window of one key between two successes holds more admitted attempts than its limit. */
  ghost predicate CapInv(cfg: Config, s: State) {
    forall k: Key, epoch: nat, from: int ::
      WindowCount(s.entries, k, epoch, from, cfg.window) <= cfg.Limit(k.scope)
  }

  ghost predicate Inv(cfg: Config, s: State) {
    LockInv(cfg, s) && LiveInv(cfg, s) && PassedInv(cfg, s) && CapInv(cfg, s)
  }

  /** What counting sees is at least every recent attempt of the running epoch. */
  lemma CountSeesRecent(cfg: Config, s: State, k: Key, since: int)
    requires LiveInv(cfg, s) && (s.pruned.Some? ==> s.pruned.value - cfg.retention <= since)
    ensures RecentCount(s.entries, k, Epoch(s, k), since) <= CountIf(s.entries, Counted(k, since))
  {
    forall i | 0 <= i < |s.entries| && Recent(k, Epoch(s, k), since)(s.entries[i])
      ensures Counted(k, since)(s.entries[i])
    {
      assert s.entries[i] in s.entries;
    }
    CountMonotone(s.entries, s.entries, Recent(k, Epoch(s, k), since), Counted(k, since));
  }

  /** Only flags differ. */
  ghost predicate SameHistory(a: seq<Entry>, b: seq<Entry>) {
    |a| == |b| && forall i :: 0 <= i < |a| ==> a[i].key == b[i].key && a[i].at == b[i].at && a[i].epoch == b[i].epoch
  }

  lemma HistoryCounts(a: seq<Entry>, b: seq<Entry>, k: Key, epoch: nat, from: int, window: nat)
    requires SameHistory(a, b)
    ensures WindowCount(a, k, epoch, from, window) == WindowCount(b, k, epoch, from, window)
    ensures RecentCount(a, k, epoch, from) == RecentCount(b, k, epoch, from)
  {
    var w, r := InWindow(k, epoch, from, from + window), Recent(k, epoch, from);
    CountMonotone(a, b, w, w);
    CountMonotone(b, a, w, w);
    CountMonotone(a, b, r, r);
    CountMonotone(b, a, r, r);
  }

  lemma HistoryKeepsCap(cfg: Config, s: State, s': State)
    requires CapInv(cfg, s) && SameHistory(s.entries, s'.entries)
    ensures CapInv(cfg, s')
  {
    forall k: Key, epoch: nat, from: int
      ensures WindowCount(s'.entries, k, epoch, from, cfg.window) <= cfg.Limit(k.scope)
    {
      HistoryCounts(s.entries, s'.entries, k, epoch, from, cfg.window);
    }
  }

  lemma {:induction false} NoneOfEpoch(entries: seq<Entry>, k: Key, epoch: nat, since: int)
    requires forall e :: e in entries && e.key == k ==> e.epoch < epoch
    ensures RecentCount(entries, k, epoch, since) == 0
  {
    if entries != [] {
      var front, last := entries[..|entries| - 1], entries[|entries| - 1];
      assert last in entries && forall e :: e in front ==> e in entries;
      NoneOfEpoch(front, k, epoch, since);
    }
  }

  /** Room lasts while flags change, and a success makes all of it free. */
  lemma RoomKept(cfg: Config, s: State, s': State, k: Key, since: int)
    requires cfg.Valid() && LiveInv(cfg, s) && RoomLeft(cfg, s, k, since) && SameHistory(s.entries, s'.entries)
    requires Epoch(s', k) == Epoch(s, k) || Epoch(s', k) == Epoch(s, k) + 1
    ensures RoomLeft(cfg, s', k, since)
  {
    if Epoch(s', k) == Epoch(s, k) {
      HistoryCounts(s.entries, s'.entries, k, Epoch(s, k), since, 0);
    } else {
      NoneOfEpoch(s.entries, k, Epoch(s', k), since);
      HistoryCounts(s.entries, s'.entries, k, Epoch(s', k), since, 0);
    }
  }

  // ---- Each step ----

  lemma FlagSteps(cfg: Config, s: State, a: Action)
    requires Enabled(cfg, s, a) && !a.Commit?
    ensures SameHistory(s.entries, Apply(cfg, s, a).entries)
    ensures forall k :: Epoch(Apply(cfg, s, a), k) == Epoch(s, k) || Epoch(Apply(cfg, s, a), k) == Epoch(s, k) + 1
  {
    if a.MarkSucceeded? {
      MarkHistory(cfg, s, a);
      MarkEpochs(cfg, s, a);
    } else if a.Prune? {
      DeletedHistory(s.entries, (e: Entry) => e.at < a.clock - cfg.retention);
    } else {
      OtherKeepRows(cfg, s, a);
    }
  }

  lemma OtherKeepRows(cfg: Config, s: State, a: Action)
    requires Enabled(cfg, s, a) && !a.Commit? && !a.MarkSucceeded? && !a.Prune?
    ensures Apply(cfg, s, a).entries == s.entries && Apply(cfg, s, a).epochs == s.epochs
  {
  }

  lemma DeletedHistory(entries: seq<Entry>, gone: Entry -> bool)
    ensures SameHistory(entries, Deleted(entries, gone))
  {
  }

  lemma MarkHistory(cfg: Config, s: State, a: Action)
    requires Enabled(cfg, s, a) && a.MarkSucceeded?
    ensures SameHistory(s.entries, Apply(cfg, s, a).entries)
  {
    forall i | 0 <= i < |s.entries|
      ensures IsMarked(s.entries[i], Apply(cfg, s, a).entries[i], a.ip, a.email)
    {
      MarkedRow(cfg, s, a, i);
    }
  }

  lemma MarkEpochs(cfg: Config, s: State, a: Action)
    requires Enabled(cfg, s, a) && a.MarkSucceeded?
    ensures forall k :: Epoch(Apply(cfg, s, a), k) == Epoch(s, k) || Epoch(Apply(cfg, s, a), k) == Epoch(s, k) + 1
  {
  }

  /** A success marks the address's one failure that no other is later than, by time and then by insertion. */
  lemma {:induction false} LatestIsLatest(entries: seq<Entry>, k: Key, now: int)
    ensures match LatestFailure(entries, k, now)
            case None => forall j :: 0 <= j < |entries| ==> !IsFailure(entries[j], k, now)
            case Some(i) =>
              && IsFailure(entries[i], k, now)
              && forall j :: 0 <= j < |entries| && IsFailure(entries[j], k, now) ==>
                   entries[j].at < entries[i].at || (entries[j].at == entries[i].at && j <= i)
  {
    if entries != [] {
      var front := entries[..|entries| - 1];
      LatestIsLatest(front, k, now);
      assert forall j :: 0 <= j < |front| ==> front[j] == entries[j];
    }
  }

  /** The row is the address's failure that none of them is later than, by time and then by insertion. */
  ghost predicate IsLatest(entries: seq<Entry>, ip: string, now: int, latest: Option<nat>) {
    match latest
    case None =>
      forall j :: 0 <= j < |entries| && entries[j].live && !entries[j].succeeded && entries[j].at <= now ==>
        entries[j].key != Key(Ip, ip)
    case Some(i) =>
      && i < |entries| && entries[i].live && !entries[i].succeeded && entries[i].at <= now
      && entries[i].key == Key(Ip, ip)
      && forall j :: 0 <= j < |entries| && entries[j].live && !entries[j].succeeded && entries[j].at <= now
                     && entries[j].key == Key(Ip, ip) ==>
           entries[j].at < entries[i].at || (entries[j].at == entries[i].at && j <= i)
  }

  lemma PickedIsLatest(entries: seq<Entry>, ip: string, now: int)
    ensures IsLatest(entries, ip, now, LatestFailure(entries, Key(Ip, ip), now))
  {
    LatestIsLatest(entries, Key(Ip, ip), now);
    assert forall j :: 0 <= j < |entries| && !IsFailure(entries[j], Key(Ip, ip), now) ==>
        !(entries[j].live && !entries[j].succeeded && entries[j].at <= now && entries[j].key == Key(Ip, ip));
  }

  /** A success touches a row's flags only: an address's row is marked, an account's deleted. */
  predicate IsMarked(e: Entry, f: Entry, ip: string, email: Option<string>) {
    || f == e
    || (e.key == Key(Ip, ip) && f == e.(succeeded := true))
    || (email.Some? && e.key == Key(Email, email.value) && f == e.(live := false))
  }

  lemma MarkedRow(cfg: Config, s: State, a: Action, i: nat)
    requires a.MarkSucceeded? && Enabled(cfg, s, a) && i < |s.entries|
    ensures |Apply(cfg, s, a).entries| == |s.entries|
    ensures IsMarked(s.entries[i], Apply(cfg, s, a).entries[i], a.ip, a.email)
  {
  }

  lemma MarkKeepsRow(cfg: Config, s: State, s': State, e: Entry, f: Entry, ip: string, email: Option<string>)
    requires EntryInv(cfg, s, e) && IsMarked(e, f, ip, email) && s'.pruned == s.pruned
    requires s'.epochs == if email.None? then s.epochs
                          else s.epochs[Key(Email, email.value) := Epoch(s, Key(Email, email.value)) + 1]
    ensures EntryInv(cfg, s', f)
  {
  }

  lemma MarkKeepsLive(cfg: Config, s: State, a: Action)
    requires LiveInv(cfg, s) && a.MarkSucceeded? && Enabled(cfg, s, a)
    ensures LiveInv(cfg, Apply(cfg, s, a))
  {
    var s' := Apply(cfg, s, a);
    forall f | f in s'.entries
      ensures EntryInv(cfg, s', f)
    {
      var i :| 0 <= i < |s'.entries| && s'.entries[i] == f;
      MarkedRow(cfg, s, a, i);
      assert s.entries[i] in s.entries;
      MarkKeepsRow(cfg, s, s', s.entries[i], f, a.ip, a.email);
    }
  }

  lemma PruneKeepsLive(cfg: Config, s: State, clock: int)
    requires LiveInv(cfg, s)
    ensures LiveInv(cfg, Apply(cfg, s, Prune(clock)))
  {
    var s' := Apply(cfg, s, Prune(clock));
    forall i | 0 <= i < |s'.entries|
      ensures EntryInv(cfg, s', s'.entries[i])
    {
      assert s.entries[i] in s.entries;
    }
  }

  lemma LiveKept(cfg: Config, s: State, a: Action)
    requires LiveInv(cfg, s) && Enabled(cfg, s, a)
    ensures LiveInv(cfg, Apply(cfg, s, a))
  {
    match a
    case MarkSucceeded(_, _, _, _) => MarkKeepsLive(cfg, s, a);
    case Prune(clock) => PruneKeepsLive(cfg, s, clock);
    case Commit(tx) =>
      forall e | e in Apply(cfg, s, a).entries
        ensures EntryInv(cfg, Apply(cfg, s, a), e)
      {
        assert e in s.entries || e in NewRows(s, s.txs[tx].request);
      }
    case _ =>
  }

  lemma LockKept(cfg: Config, s: State, a: Action)
    requires LockInv(cfg, s) && Enabled(cfg, s, a)
    ensures LockInv(cfg, Apply(cfg, s, a))
  {
    var s' := Apply(cfg, s, a);
    forall tx, i | tx in s'.txs && 0 <= i < Got(s'.txs[tx])
      ensures Holds(cfg, s', tx, s'.txs[tx].request.Keys()[i])
    {
      if tx in s.txs {
        if i < Got(s.txs[tx]) {
          assert Holds(cfg, s, tx, s.txs[tx].request.Keys()[i]);
        }
      }
    }
  }

  /** Rows under other keys take no room. */
  lemma RoomBesideNewRows(cfg: Config, s: State, s': State, r: Request, k: Key, since: int)
    requires RoomLeft(cfg, s, k, since) && k !in r.Keys()
    requires s'.entries == s.entries + NewRows(s, r) && s'.epochs == s.epochs
    ensures RoomLeft(cfg, s', k, since)
  {
    NewRowsCount(s, r, Recent(k, Epoch(s, k), since));
    CountConcat(s.entries, NewRows(s, r), Recent(k, Epoch(s, k), since));
  }

  function One(p: Entry -> bool, e: Entry): nat { if p(e) then 1 else 0 }

  lemma NewRowsCount(s: State, r: Request, p: Entry -> bool)
    ensures CountIf(NewRows(s, r), p)
         == One(p, NewRow(s, r.Address(), r.now))
            + (if r.email.Some? then One(p, NewRow(s, Key(Email, r.email.value), r.now)) else 0)
  {
    var rows := NewRows(s, r);
    assert [rows[0]][..0] == [] && CountIf([rows[0]], p) == One(p, rows[0]);
    if r.email.Some? {
      assert rows[..|rows| - 1] == [rows[0]];
      assert CountIf(rows, p) == CountIf([rows[0]], p) + One(p, rows[1]);
    } else {
      assert rows == [rows[0]];
    }
  }

  /** Transactions past all their locks share no key. */
  lemma NoSharedKey(cfg: Config, s: State, a: nat, b: nat, k: Key)
    requires LockInv(cfg, s) && a in s.txs && b in s.txs && a != b
    requires !s.txs[a].stage.Locking? && !s.txs[b].stage.Locking? && k in s.txs[a].request.Keys()
    ensures k !in s.txs[b].request.Keys()
  {
    var i :| 0 <= i < |s.txs[a].request.Keys()| && s.txs[a].request.Keys()[i] == k;
    assert Holds(cfg, s, a, k);
    assert forall j :: 0 <= j < |s.txs[b].request.Keys()| ==> Holds(cfg, s, b, s.txs[b].request.Keys()[j]);
  }

  lemma CommitKeepsRoom(cfg: Config, s: State, b: nat, tx: nat, k: Key)
    requires Inv(cfg, s) && Enabled(cfg, s, Commit(b)) && tx in s.txs && tx != b
    requires !s.txs[tx].stage.Locking? && k in s.txs[tx].request.Keys()
    requires RoomLeft(cfg, s, k, Since(cfg, s.txs[tx].request))
    ensures RoomLeft(cfg, Apply(cfg, s, Commit(b)), k, Since(cfg, s.txs[tx].request))
  {
    NoSharedKey(cfg, s, tx, b, k);
    assert TxInv(cfg, s, s.txs[b]);
    RoomBesideNewRows(cfg, s, Apply(cfg, s, Commit(b)), s.txs[b].request, k, Since(cfg, s.txs[tx].request));
  }

  lemma CommitKeepsPassed(cfg: Config, s: State, b: nat, tx: nat)
    requires Inv(cfg, s) && Enabled(cfg, s, Commit(b)) && tx in Apply(cfg, s, Commit(b)).txs
    ensures TxInv(cfg, Apply(cfg, s, Commit(b)), Apply(cfg, s, Commit(b)).txs[tx])
  {
    var t := s.txs[tx];
    assert TxInv(cfg, s, t);
    if !t.stage.Locking? {
      assert t.request.Keys()[|t.request.Keys()| - 1] == t.request.Address();
      CommitKeepsRoom(cfg, s, b, tx, t.request.Address());
      if t.stage.EmailPassed? {
        assert t.request.Keys()[0] == Key(Email, t.request.email.value);
        CommitKeepsRoom(cfg, s, b, tx, Key(Email, t.request.email.value));
      }
    }
  }

  lemma FlagsKeepPassed(cfg: Config, s: State, a: Action, t: Tx)
    requires cfg.Valid() && LiveInv(cfg, s) && TxInv(cfg, s, t) && Enabled(cfg, s, a) && !a.Commit?
    ensures TxInv(cfg, Apply(cfg, s, a), t)
  {
    var s' := Apply(cfg, s, a);
    FlagSteps(cfg, s, a);
    if !t.stage.Locking? {
      RoomKept(cfg, s, s', t.request.Address(), Since(cfg, t.request));
      if t.stage.EmailPassed? {
        RoomKept(cfg, s, s', Key(Email, t.request.email.value), Since(cfg, t.request));
      }
    }
  }

  lemma CountKeepsPassed(cfg: Config, s: State, a: Action)
    requires Inv(cfg, s) && Enabled(cfg, s, a) && (a.CountAddress? || a.CountEmail?) && Punctual(cfg, s, a)
    requires cfg.skew <= cfg.retention - cfg.window && a.tx in Apply(cfg, s, a).txs
    ensures TxInv(cfg, Apply(cfg, s, a), Apply(cfg, s, a).txs[a.tx])
  {
    var r := s.txs[a.tx].request;
    assert TxInv(cfg, s, s.txs[a.tx]);
    CountSeesRecent(cfg, s, r.Address(), Since(cfg, r));
    if r.email.Some? {
      CountSeesRecent(cfg, s, Key(Email, r.email.value), Since(cfg, r));
    }
  }

  lemma PassedKept(cfg: Config, s: State, a: Action)
    requires cfg.Valid() && Inv(cfg, s) && Enabled(cfg, s, a) && Punctual(cfg, s, a)
    requires cfg.skew <= cfg.retention - cfg.window
    ensures PassedInv(cfg, Apply(cfg, s, a))
  {
    var s' := Apply(cfg, s, a);
    forall tx | tx in s'.txs
      ensures TxInv(cfg, s', s'.txs[tx])
    {
      if a.Commit? {
        CommitKeepsPassed(cfg, s, a.tx, tx);
      } else if (a.CountAddress? || a.CountEmail?) && a.tx == tx {
        CountKeepsPassed(cfg, s, a);
      } else if tx in s.txs {
        FlagsKeepPassed(cfg, s, a, s.txs[tx]);
      }
    }
  }

  /** A window that takes in the new attempt held fewer than the limit before it. */
  lemma WindowHadRoom(cfg: Config, s: State, k: Key, now: int, from: int)
    requires RoomLeft(cfg, s, k, now - cfg.window) && from <= now <= from + cfg.window
    ensures WindowCount(s.entries, k, Epoch(s, k), from, cfg.window) < cfg.Limit(k.scope)
  {
    CountMonotone(s.entries, s.entries, InWindow(k, Epoch(s, k), from, from + cfg.window),
                  Recent(k, Epoch(s, k), now - cfg.window));
  }

  /** A transaction about to commit has room for both its keys. */
  lemma RoomForKeys(cfg: Config, s: State, tx: nat, k: Key)
    requires PassedInv(cfg, s) && Enabled(cfg, s, Commit(tx)) && k in s.txs[tx].request.Keys()
    ensures RoomLeft(cfg, s, k, Since(cfg, s.txs[tx].request))
  {
    assert TxInv(cfg, s, s.txs[tx]);
  }

  /** At most one of the new rows is of a key. */
  lemma NewRowsInWindow(s: State, r: Request, k: Key, epoch: nat, from: int, to: int)
    requires r.Valid()
    ensures var n := CountIf(NewRows(s, r), InWindow(k, epoch, from, to));
            n == 0 || (n == 1 && k in r.Keys() && epoch == Epoch(s, k) && from <= r.now <= to)
  {
    NewRowsCount(s, r, InWindow(k, epoch, from, to));
    assert r.Address() != Key(Email, if r.email.Some? then r.email.value else "");
    assert r.Keys()[|r.Keys()| - 1] == r.Address();
    if r.email.Some? {
      assert r.Keys()[0] == Key(Email, r.email.value);
    }
  }

  /** A key with room for one more attempt has it in every window. */
  lemma NewRowsFit(cfg: Config, s: State, r: Request, k: Key, epoch: nat, from: int)
    requires r.Valid() && (k in r.Keys() ==> RoomLeft(cfg, s, k, Since(cfg, r)))
    requires WindowCount(s.entries, k, epoch, from, cfg.window) <= cfg.Limit(k.scope)
    ensures WindowCount(s.entries + NewRows(s, r), k, epoch, from, cfg.window) <= cfg.Limit(k.scope)
  {
    CountConcat(s.entries, NewRows(s, r), InWindow(k, epoch, from, from + cfg.window));
    NewRowsInWindow(s, r, k, epoch, from, from + cfg.window);
    if k in r.Keys() && epoch == Epoch(s, k) && from <= r.now <= from + cfg.window {
      WindowHadRoom(cfg, s, k, r.now, from);
    }
  }

  lemma CommitKeepsCap(cfg: Config, s: State, tx: nat)
    requires Inv(cfg, s) && Enabled(cfg, s, Commit(tx))
    ensures CapInv(cfg, Apply(cfg, s, Commit(tx)))
  {
    var s', r := Apply(cfg, s, Commit(tx)), s.txs[tx].request;
    assert TxInv(cfg, s, s.txs[tx]);
    forall k: Key, epoch: nat, from: int
      ensures WindowCount(s'.entries, k, epoch, from, cfg.window) <= cfg.Limit(k.scope)
    {
      if k in r.Keys() {
        RoomForKeys(cfg, s, tx, k);
      }
      NewRowsFit(cfg, s, r, k, epoch, from);
    }
  }

  lemma StepKeepsInv(cfg: Config, s: State, a: Action)
    requires cfg.Valid() && Inv(cfg, s) && Punctual(cfg, s, a) && cfg.skew <= cfg.retention - cfg.window
    ensures Inv(cfg, Step(cfg, s, a))
  {
    if Enabled(cfg, s, a) {
      LockKept(cfg, s, a);
      LiveKept(cfg, s, a);
      PassedKept(cfg, s, a);
      if a.Commit? {
        CommitKeepsCap(cfg, s, a.tx);
      } else {
        FlagSteps(cfg, s, a);
        HistoryKeepsCap(cfg, s, Apply(cfg, s, a));
      }
    }
  }

  lemma {:induction false} RunKeepsInv(cfg: Config, steps: seq<Action>)
    requires cfg.Valid() && PunctualRun(cfg, EMPTY, steps) && cfg.skew <= cfg.retention - cfg.window
    ensures Inv(cfg, Run(cfg, EMPTY, steps))
  {
    if steps != [] {
      RunKeepsInv(cfg, steps[..|steps| - 1]);
      StepKeepsInv(cfg, Run(cfg, EMPTY, steps[..|steps| - 1]), steps[|steps| - 1]);
    }
  }

  /**
   * The cap: under every interleaving of reservations, with timestamps in any order, no window of the configured
   * length holds more admitted attempts of one address and scope than its limit, nor more of one account between two of
   * its successes, so long as sweeps run no further ahead than retention exceeds the window.
   */
  lemma WindowsAreCapped(cfg: Config, steps: seq<Action>, k: Key, epoch: nat, from: int)
    requires cfg.Valid() && PunctualRun(cfg, EMPTY, steps) && cfg.skew <= cfg.retention - cfg.window
    ensures WindowCount(Run(cfg, EMPTY, steps).entries, k, epoch, from, cfg.window)
         <= match k.scope case Ip => cfg.maxPerIp case Register => cfg.maxRegistrations case Email => cfg.maxFailures
  {
    RunKeepsInv(cfg, steps);
  }

  // ---- What a count and a success leave standing ----

  /** The rows of a key still there since an instant, only failures for an account. */
  function Standing(entries: seq<Entry>, k: Key, since: int): set<nat> {
    set i: nat | i < |entries| && entries[i].live && entries[i].key == k && since <= entries[i].at
                 && !(k.scope == Email && entries[i].succeeded)
  }

  lemma StandingOneMore(entries: seq<Entry>, e: Entry, k: Key, since: int)
    ensures Standing(entries + [e], k, since)
         == Standing(entries, k, since) + if Counted(k, since)(e) then {|entries|} else {}
  {
    assert forall i :: 0 <= i < |entries| ==> (entries + [e])[i] == entries[i];
  }

  /** A count is the number of rows standing, neither more nor fewer. */
  lemma {:induction false} CountsStanding(entries: seq<Entry>, k: Key, since: int)
    ensures CountIf(entries, Counted(k, since)) == |Standing(entries, k, since)|
  {
    if entries != [] {
      var front, last := entries[..|entries| - 1], entries[|entries| - 1];
      CountsStanding(front, k, since);
      StandingOneMore(front, last, k, since);
      assert entries == front + [last] && |front| !in Standing(front, k, since);
    }
  }

  /**
   * A success marks the address's row it found and deletes the rows of the account that it saw. Rows come since, and
   * those of every other key, stay as they were.
   */
  ghost predicate SuccessLeaves(was: seq<Entry>, entries: seq<Entry>, ip: string, email: Option<string>,
                                picked: Option<nat>, seen: nat) {
    && |entries| == |was|
    && forall i :: 0 <= i < |was| ==>
         && entries[i].key == was[i].key && entries[i].at == was[i].at
         && (entries[i].succeeded <==> was[i].succeeded || picked == Some(i))
         && entries[i].live
              == (was[i].live && !(email == Some(was[i].key.name) && was[i].key.scope == Email && i < seen))
  }

  lemma SuccessClears(cfg: Config, s: State, ip: string, email: Option<string>, picked: Option<nat>, seen: nat)
    requires Enabled(cfg, s, MarkSucceeded(ip, email, picked, seen))
    ensures SuccessLeaves(s.entries, Apply(cfg, s, MarkSucceeded(ip, email, picked, seen)).entries, ip, email, picked,
                          seen)
  {
  }

  lemma SeenAreGone(was: seq<Entry>, after: seq<Entry>, ip: string, email: string, picked: Option<nat>, seen: nat,
                    since: int)
    requires SuccessLeaves(was, after, ip, Some(email), picked, seen) && seen <= |was|
    ensures CountIf(after[..seen], Counted(Key(Email, email), since)) == 0
  {
    forall e | e in after[..seen]
      ensures !Counted(Key(Email, email), since)(e)
    {
      var i :| 0 <= i < seen && after[i] == e;
    }
    CountAtMost(after[..seen], Counted(Key(Email, email), since));
  }

  lemma LaterStand(was: seq<Entry>, after: seq<Entry>, ip: string, email: string, picked: Option<nat>, seen: nat,
                   since: int)
    requires SuccessLeaves(was, after, ip, Some(email), picked, seen) && seen <= |was|
    requires picked.Some? ==> picked.value < |was| && was[picked.value].key == Key(Ip, ip)
    ensures CountIf(after[seen..], Counted(Key(Email, email), since))
         == CountIf(was[seen..], Counted(Key(Email, email), since))
  {
    var a, b, p := after[seen..], was[seen..], Counted(Key(Email, email), since);
    forall i | 0 <= i < |a|
      ensures p(a[i]) == p(b[i])
    {
      assert a[i] == after[seen + i] && b[i] == was[seen + i];
    }
    CountMonotone(a, b, p, p);
    CountMonotone(b, a, p, p);
  }

  lemma OnlyLaterCount(was: seq<Entry>, after: seq<Entry>, ip: string, email: string, picked: Option<nat>, seen: nat,
                       since: int)
    requires SuccessLeaves(was, after, ip, Some(email), picked, seen) && seen <= |was|
    requires picked.Some? ==> picked.value < |was| && was[picked.value].key == Key(Ip, ip)
    ensures CountIf(after, Counted(Key(Email, email), since)) == CountIf(was[seen..], Counted(Key(Email, email), since))
  {
    SeenAreGone(was, after, ip, email, picked, seen, since);
    LaterStand(was, after, ip, email, picked, seen, since);
    CountConcat(after[..seen], after[seen..], Counted(Key(Email, email), since));
    assert after == after[..seen] + after[seen..];
  }

  /** After a success the account's count is of the rows that came after those it saw, and of no others. */
  lemma SuccessResetsCount(cfg: Config, s: State, ip: string, email: string, picked: Option<nat>, seen: nat, since: int)
    requires Enabled(cfg, s, MarkSucceeded(ip, Some(email), picked, seen))
    ensures CountIf(Apply(cfg, s, MarkSucceeded(ip, Some(email), picked, seen)).entries,
                    Counted(Key(Email, email), since))
         == CountIf(s.entries[seen..], Counted(Key(Email, email), since))
  {
    var after := Apply(cfg, s, MarkSucceeded(ip, Some(email), picked, seen)).entries;
    SuccessClears(cfg, s, ip, Some(email), picked, seen);
    OnlyLaterCount(s.entries, after, ip, email, picked, seen, since);
  }

  // ---- Locks ----

  /** A transaction with nothing left to wait for, or whose next lock is free. */
  predicate CanMove(cfg: Config, s: State, tx: nat)
    requires tx in s.txs
  {
    var t := s.txs[tx];
    t.stage.Locking? && t.stage.got < |t.request.Keys()| ==> Free(s, cfg.hash(t.request.Keys()[t.stage.got]), tx)
  }

  /** A lock is held only by a transaction that has taken a key with that number. */
  ghost predicate HeldInv(cfg: Config, s: State) {
    && (forall tx :: tx in s.txs ==> s.txs[tx].request.Valid())
    && (forall l :: l in s.held ==> s.held[l] in s.txs)
    && (forall l :: l in s.held ==> Took(cfg, s.txs[s.held[l]], l))
  }

  /** Transaction `tx` has taken a key with this number. */
  ghost predicate Took(cfg: Config, t: Tx, lock: int) {
    exists i :: 0 <= i < Got(t) && cfg.hash(t.request.Keys()[i]) == lock
  }

  lemma TakesNext(cfg: Config, s: State, tx: nat)
    requires Enabled(cfg, s, Lock(tx))
    ensures var t, t' := s.txs[tx], Apply(cfg, s, Lock(tx)).txs[tx];
            Took(cfg, t', cfg.hash(t.request.Keys()[t.stage.got]))
  {
    var t := s.txs[tx];
    assert t.stage.got < Got(Apply(cfg, s, Lock(tx)).txs[tx]);
  }

  /** What is taken stays taken while the transaction lasts. */
  lemma TookKept(cfg: Config, s: State, a: Action, tx: nat, lock: int)
    requires Enabled(cfg, s, a) && tx in s.txs && tx in Apply(cfg, s, a).txs && Took(cfg, s.txs[tx], lock)
    ensures Took(cfg, Apply(cfg, s, a).txs[tx], lock)
  {
    var i :| 0 <= i < Got(s.txs[tx]) && cfg.hash(s.txs[tx].request.Keys()[i]) == lock;
    assert i < Got(Apply(cfg, s, a).txs[tx]);
  }

  /** A lock held after a step was held before it by the same transaction, or has just been taken. */
  lemma HeldBefore(cfg: Config, s: State, a: Action, l: int)
    requires Enabled(cfg, s, a) && l in Apply(cfg, s, a).held
    ensures var s' := Apply(cfg, s, a);
            if a.Lock? && l == cfg.hash(s.txs[a.tx].request.Keys()[s.txs[a.tx].stage.got]) then s'.held[l] == a.tx
            else l in s.held && s'.held[l] == s.held[l] && (s.held[l] in s.txs ==> s.held[l] in s'.txs)
  {
  }

  lemma StayValid(cfg: Config, s: State, a: Action, tx: nat)
    requires (forall t :: t in s.txs ==> s.txs[t].request.Valid()) && Enabled(cfg, s, a) && tx in Apply(cfg, s, a).txs
    ensures Apply(cfg, s, a).txs[tx].request.Valid()
  {
  }

  lemma HeldKept(cfg: Config, s: State, a: Action)
    requires HeldInv(cfg, s) && Enabled(cfg, s, a)
    ensures HeldInv(cfg, Apply(cfg, s, a))
  {
    var s' := Apply(cfg, s, a);
    forall l | l in s'.held
      ensures s'.held[l] in s'.txs && Took(cfg, s'.txs[s'.held[l]], l)
    {
      HeldBefore(cfg, s, a, l);
      if a.Lock? && l == cfg.hash(s.txs[a.tx].request.Keys()[s.txs[a.tx].stage.got]) {
        TakesNext(cfg, s, a.tx);
      } else {
        TookKept(cfg, s, a, s.held[l], l);
      }
    }
    forall tx | tx in s'.txs
      ensures s'.txs[tx].request.Valid()
    {
      StayValid(cfg, s, a, tx);
    }
  }

  lemma {:induction false} RunKeepsHeld(cfg: Config, steps: seq<Action>)
    ensures HeldInv(cfg, Run(cfg, EMPTY, steps))
  {
    if steps != [] {
      RunKeepsHeld(cfg, steps[..|steps| - 1]);
      if Enabled(cfg, Run(cfg, EMPTY, steps[..|steps| - 1]), steps[|steps| - 1]) {
        HeldKept(cfg, Run(cfg, EMPTY, steps[..|steps| - 1]), steps[|steps| - 1]);
      }
    }
  }

  lemma Then(cfg: Config, steps: seq<Action>, a: Action) returns (more: seq<Action>)
    requires Enabled(cfg, Run(cfg, EMPTY, steps), a)
    requires PunctualRun(cfg, EMPTY, steps) && Punctual(cfg, Run(cfg, EMPTY, steps), a)
    ensures Run(cfg, EMPTY, more) == Apply(cfg, Run(cfg, EMPTY, steps), a) && PunctualRun(cfg, EMPTY, more)
  {
    more := steps + [a];
    assert more[..|more| - 1] == steps;
  }

  /** A lock number that is both an account's and an address's. */
  ghost predicate Shared(cfg: Config, lock: int) {
    exists a: Key, b: Key :: a.scope.Email? && !b.scope.Email? && cfg.hash(a) == lock == cfg.hash(b)
  }

  ghost predicate AtMostOneShared(cfg: Config) {
    forall l: int, m: int :: Shared(cfg, l) && Shared(cfg, m) ==> l == m
  }

  /** Some reservation under way can always take its next step. */
  ghost predicate NeverStuck(cfg: Config) {
    forall steps :: Run(cfg, EMPTY, steps).txs != map[] ==>
      exists tx :: tx in Run(cfg, EMPTY, steps).txs && CanMove(cfg, Run(cfg, EMPTY, steps), tx)
  }

  /** The address's lock, which every reservation takes last. */
  function LastLock(cfg: Config, t: Tx): int { cfg.hash(t.request.Address()) }

  /** Who holds a lock and still waits holds it for its account, and waits for its address's lock. */
  lemma WaitingHolder(cfg: Config, s: State, lock: int)
    requires HeldInv(cfg, s) && lock in s.held
    ensures s.held[lock] in s.txs
    ensures var t := s.txs[s.held[lock]];
            !CanMove(cfg, s, s.held[lock]) ==>
              && t.request.email.Some? && cfg.hash(Key(Email, t.request.email.value)) == lock
              && LastLock(cfg, t) in s.held && s.held[LastLock(cfg, t)] != s.held[lock]
  {
    assert s.held[lock] in s.txs;
    var t := s.txs[s.held[lock]];
    assert Took(cfg, t, lock);
    var i :| 0 <= i < Got(t) && cfg.hash(t.request.Keys()[i]) == lock;
  }

  lemma OneSharedNeverStuck(cfg: Config, s: State, tx: nat)
    requires HeldInv(cfg, s) && AtMostOneShared(cfg) && tx in s.txs
    ensures exists u :: u in s.txs && CanMove(cfg, s, u)
  {
    if !CanMove(cfg, s, tx) {
      var l1 := cfg.hash(s.txs[tx].request.Keys()[s.txs[tx].stage.got]);
      WaitingHolder(cfg, s, l1);
      if !CanMove(cfg, s, s.held[l1]) {
        var l2 := LastLock(cfg, s.txs[s.held[l1]]);
        WaitingHolder(cfg, s, l2);
        if !CanMove(cfg, s, s.held[l2]) {
          var l3 := LastLock(cfg, s.txs[s.held[l2]]);
          WaitingHolder(cfg, s, l3);
          if !CanMove(cfg, s, s.held[l3]) {
            HoldersShare(cfg, s.txs[s.held[l1]], s.txs[s.held[l2]], l2);
            HoldersShare(cfg, s.txs[s.held[l2]], s.txs[s.held[l3]], l3);
            assert false;
          }
        }
      }
    }
  }

  lemma HoldersShare(cfg: Config, t: Tx, u: Tx, lock: int)
    requires t.request.Valid() && LastLock(cfg, t) == lock
    requires u.request.email.Some? && cfg.hash(Key(Email, u.request.email.value)) == lock
    ensures Shared(cfg, lock)
  {
    assert Key(Email, u.request.email.value).scope.Email? && !t.request.Address().scope.Email?;
  }

  /** Two reservations, each holding its account's lock, which is the other's address's. */
  lemma TwoSharedDeadlock(cfg: Config, a: Key, b: Key, c: Key, d: Key) returns (steps: seq<Action>)
    requires a.scope.Email? && !b.scope.Email? && c.scope.Email? && !d.scope.Email?
    requires cfg.hash(a) == cfg.hash(b) != cfg.hash(c) == cfg.hash(d)
    ensures Run(cfg, EMPTY, steps).txs.Keys == {0, 1}
    ensures !CanMove(cfg, Run(cfg, EMPTY, steps), 0) && !CanMove(cfg, Run(cfg, EMPTY, steps), 1)
  {
    var r0, r1 := Request(d.scope, d.name, Some(a.name), 0), Request(b.scope, b.name, Some(c.name), 0);
    assert r0.Keys() == [a, d] && r1.Keys() == [c, b];
    steps := Then(cfg, [], Begin(0, r0));
    steps := Then(cfg, steps, Begin(1, r1));
    steps := Then(cfg, steps, Lock(0));
    assert Run(cfg, EMPTY, steps).held == map[cfg.hash(a) := 0];
    steps := Then(cfg, steps, Lock(1));
  }

  lemma NobodyMoves(cfg: Config, s: State)
    requires s.txs.Keys == {0, 1} && !CanMove(cfg, s, 0) && !CanMove(cfg, s, 1)
    ensures s.txs != map[] && !exists tx :: tx in s.txs && CanMove(cfg, s, tx)
  {
    assert 0 in s.txs;
    assert forall tx :: tx in s.txs ==> tx == 0 || tx == 1;
  }

  lemma TwoSharedStick(cfg: Config, l: int, m: int)
    requires Shared(cfg, l) && Shared(cfg, m) && l != m
    ensures !NeverStuck(cfg)
  {
    var a: Key, b: Key :| a.scope.Email? && !b.scope.Email? && cfg.hash(a) == l == cfg.hash(b);
    var c: Key, d: Key :| c.scope.Email? && !d.scope.Email? && cfg.hash(c) == m == cfg.hash(d);
    var steps := TwoSharedDeadlock(cfg, a, b, c, d);
    NobodyMoves(cfg, Run(cfg, EMPTY, steps));
  }

  /**
   * Taking the locks in sorted order rules deadlock out exactly when at most one lock number is shared between an
   * account and an address: a reservation under way can then always take its next step.
   */
  lemma LocksNeverStickIff(cfg: Config)
    ensures NeverStuck(cfg) <==> AtMostOneShared(cfg)
  {
    if AtMostOneShared(cfg) {
      forall steps | Run(cfg, EMPTY, steps).txs != map[]
        ensures exists tx :: tx in Run(cfg, EMPTY, steps).txs && CanMove(cfg, Run(cfg, EMPTY, steps), tx)
      {
        RunKeepsHeld(cfg, steps);
        var tx :| tx in Run(cfg, EMPTY, steps).txs;
        OneSharedNeverStuck(cfg, Run(cfg, EMPTY, steps), tx);
      }
    } else {
      var l: int, m: int :| Shared(cfg, l) && Shared(cfg, m) && l != m;
      TwoSharedStick(cfg, l, m);
    }
  }

  // ---- Why sweeps must not run ahead ----

  /** No reservation is under way. */
  predicate Quiet(s: State) { s.txs == map[] && s.held == map[] }

  function AddressEntry(ip: string, now: int): Entry { Entry(Key(Ip, ip), now, 0, false, true) }

  /** A reservation alone, and how far it has got. */
  function Reserving(s: State, r: Request, stage: Stage, held: map<int, nat>): State {
    s.(txs := map[0 := Tx(r, stage)], held := held)
  }

  lemma LockSteps(cfg: Config, s: State, r: Request)
    requires Quiet(s) && r.Valid() && r.email.None?
    ensures var s1 := Reserving(s, r, Locking(0), map[]);
            var s2 := Reserving(s, r, Locking(1), map[cfg.hash(r.Address()) := 0]);
            && Enabled(cfg, s, Begin(0, r)) && Apply(cfg, s, Begin(0, r)) == s1
            && Enabled(cfg, s1, Lock(0)) && Apply(cfg, s1, Lock(0)) == s2
  {
    assert r.Keys() == [r.Address()];
  }

  lemma CountStep(cfg: Config, s: State, r: Request, held: map<int, nat>)
    requires r.email.None? && CountIf(s.entries, Counted(r.Address(), Since(cfg, r))) < cfg.Limit(r.scope)
    ensures var s2, s3 := Reserving(s, r, Locking(1), held), Reserving(s, r, AddressPassed, held);
            Enabled(cfg, s2, CountAddress(0)) && Apply(cfg, s2, CountAddress(0)) == s3
  {
    assert r.Keys() == [r.Address()];
  }

  lemma CommitStep(cfg: Config, s: State, r: Request, lock: int)
    requires Quiet(s) && r.email.None?
    ensures var s3 := Reserving(s, r, AddressPassed, map[lock := 0]);
            && Enabled(cfg, s3, Commit(0))
            && Apply(cfg, s3, Commit(0)) == s.(entries := s.entries + [NewRow(s, r.Address(), r.now)])
  {
    var s3 := Reserving(s, r, AddressPassed, map[lock := 0]);
    assert s3.txs - {0} == map[];
    assert NewRows(s3, r) == [NewRow(s, r.Address(), r.now)];
  }

  lemma AdmitOne(cfg: Config, steps: seq<Action>, ip: string, now: int) returns (more: seq<Action>)
    requires var s := Run(cfg, EMPTY, steps);
             && Quiet(s) && PunctualRun(cfg, EMPTY, steps) && (s.pruned.Some? ==> s.pruned.value <= now + cfg.skew)
             && CountIf(s.entries, Counted(Key(Ip, ip), now - cfg.window)) < cfg.maxPerIp
    ensures PunctualRun(cfg, EMPTY, more)
    ensures var s := Run(cfg, EMPTY, steps);
            Run(cfg, EMPTY, more) == s.(entries := s.entries + [NewRow(s, Key(Ip, ip), now)])
  {
    var s, r := Run(cfg, EMPTY, steps), Request(Ip, ip, None, now);
    LockSteps(cfg, s, r);
    CountStep(cfg, s, r, map[cfg.hash(r.Address()) := 0]);
    CommitStep(cfg, s, r, cfg.hash(r.Address()));
    more := Then(cfg, steps, Begin(0, r));
    more := Then(cfg, more, Lock(0));
    more := Then(cfg, more, CountAddress(0));
    more := Then(cfg, more, Commit(0));
  }

  /** `n` attempts from one address, all at one instant. */
  lemma {:induction false} AdmitMany(cfg: Config, ip: string, n: nat) returns (steps: seq<Action>)
    requires n <= cfg.maxPerIp
    ensures PunctualRun(cfg, EMPTY, steps)
    ensures Run(cfg, EMPTY, steps) == EMPTY.(entries := Repeated(AddressEntry(ip, 0), n))
  {
    steps := [];
    if n > 0 {
      steps := AdmitMany(cfg, ip, n - 1);
      var entries := Repeated(AddressEntry(ip, 0), n - 1);
      CountAtMost(entries, Counted(Key(Ip, ip), 0 - cfg.window));
      steps := AdmitOne(cfg, steps, ip, 0);
      assert Repeated(AddressEntry(ip, 0), n) == entries + [AddressEntry(ip, 0)];
    }
  }

  function Repeated(e: Entry, n: nat): seq<Entry> { seq(n, _ => e) }

  lemma {:induction false} CountAtMost(s: seq<Entry>, p: Entry -> bool)
    ensures CountIf(s, p) <= |s|
    ensures (forall e :: e in s ==> p(e)) ==> CountIf(s, p) == |s|
    ensures (forall e :: e in s ==> !p(e)) ==> CountIf(s, p) == 0
  {
    if s != [] {
      CountAtMost(s[..|s| - 1], p);
    }
  }

  /** A sweep past the retention takes every attempt made at zero. */
  lemma AllSwept(cfg: Config, ip: string, n: nat)
    ensures Apply(cfg, EMPTY.(entries := Repeated(AddressEntry(ip, 0), n)), Prune(cfg.retention + 1)).entries
         == Repeated(AddressEntry(ip, 0).(live := false), n)
  {
  }

  lemma SweptCounts(ip: string, n: nat, window: nat)
    ensures var dead, k := Repeated(AddressEntry(ip, 0).(live := false), n), Key(Ip, ip);
            && CountIf(dead, Counted(k, 0)) == 0
            && WindowCount(dead + [AddressEntry(ip, window)], k, 0, 0, window) == n + 1
  {
    var dead, last := Repeated(AddressEntry(ip, 0).(live := false), n), [AddressEntry(ip, window)];
    var w := InWindow(Key(Ip, ip), 0, 0, 0 + window);
    CountAtMost(dead, Counted(Key(Ip, ip), 0));
    CountAtMost(dead, w);
    CountAtMost(last, w);
    CountConcat(dead, last, w);
  }

  /** A sweep one millisecond too far ahead lets one attempt more than the limit into a window. */
  lemma EarlySweepBreaksCap(cfg: Config) returns (steps: seq<Action>, k: Key)
    requires cfg.Valid() && cfg.skew > cfg.retention - cfg.window
    ensures PunctualRun(cfg, EMPTY, steps)
    ensures WindowCount(Run(cfg, EMPTY, steps).entries, k, 0, 0, cfg.window) == cfg.Limit(k.scope) + 1
  {
    k := Key(Ip, "a");
    steps := AdmitMany(cfg, "a", cfg.maxPerIp);
    AllSwept(cfg, "a", cfg.maxPerIp);
    steps := Then(cfg, steps, Prune(cfg.retention + 1));
    SweptCounts("a", cfg.maxPerIp, cfg.window);
    steps := AdmitOne(cfg, steps, "a", cfg.window);
  }

  /** The cap holds in every run. */
  ghost predicate Capped(cfg: Config) {
    forall steps, k: Key, epoch: nat, from: int :: PunctualRun(cfg, EMPTY, steps) ==>
      WindowCount(Run(cfg, EMPTY, steps).entries, k, epoch, from, cfg.window) <= cfg.Limit(k.scope)
  }

  /** Pruning is harmless exactly while sweeps run no further ahead than retention exceeds the window. */
  lemma PruningIsHarmlessIff(cfg: Config)
    requires cfg.Valid()
    ensures Capped(cfg) <==> cfg.skew <= cfg.retention - cfg.window
  {
    if cfg.skew <= cfg.retention - cfg.window {
      forall steps, k: Key, epoch: nat, from: int | PunctualRun(cfg, EMPTY, steps)
        ensures WindowCount(Run(cfg, EMPTY, steps).entries, k, epoch, from, cfg.window) <= cfg.Limit(k.scope)
      {
        WindowsAreCapped(cfg, steps, k, epoch, from);
      }
    } else {
      var steps, k := EarlySweepBreaksCap(cfg);
    }
  }
}
