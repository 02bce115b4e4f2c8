/**
 * The transactional outbox's relay: any number of relays share the rows through skip-locked claims, publish
 * each claimed row, and settle the whole batch in one transaction, which may also roll back or die.
 *
 * What the publisher has accepted cannot be taken back, so it is kept apart from the rows, which can. The
 * counts of acceptances, of acceptances a rollback undid, and of committed failures are the bookkeeping an
 * observer of the whole system would do; no relay reads them.
 */
module OutboxRelay {
  import opened Options

  type RowId = string
  type RelayId = nat

  datatype EventBody = EventBody(name: string, aggregateType: string, aggregateId: string, payload: string)

  datatype State = PENDING | PROCESSING | PUBLISHED | DEAD_LETTER

  datatype Row = Row(event: EventBody, createdAt: int, state: State, attempts: nat, nextAttemptAt: int)

  // ---------------------------------------------------------------- the transaction

  const BACKOFF_CAP_SECONDS := 300

  function Pow2(n: nat): nat {
    if n == 0 then 1 else 2 * Pow2(n - 1)
  }

  function BackoffSeconds(attempts: nat): nat {
    if Pow2(attempts) < BACKOFF_CAP_SECONDS then Pow2(attempts) else BACKOFF_CAP_SECONDS
  }

  lemma {:induction false} BackoffDoublesToTheCap(n: nat)
    ensures BackoffSeconds(n) <= BackoffSeconds(n + 1) <= BACKOFF_CAP_SECONDS
    ensures BackoffSeconds(n) < BACKOFF_CAP_SECONDS ==> BackoffSeconds(n + 1) in {2 * BackoffSeconds(n), BACKOFF_CAP_SECONDS}
    ensures BackoffSeconds(n) < BACKOFF_CAP_SECONDS <==> n <= 8
  {
    if n > 9 {
      BackoffDoublesToTheCap(n - 1);
    } else {
      assert Pow2(4) == 16 && Pow2(8) == 256 && Pow2(9) == 512;
      assert n <= 8 ==> Pow2(n) <= 256 by { PowersGrow(n, 8); }
    }
  }

  lemma {:induction false} PowersGrow(m: nat, n: nat)
    ensures m <= n ==> Pow2(m) <= Pow2(n)
    decreases n
  {
    if m < n {
      PowersGrow(m, n - 1);
    }
  }

  /** What one delivery makes of its row. */
  function Settled(row: Row, delivered: bool, maxAttempts: nat, now: int): Row {
    var attempts := row.attempts + 1;
    if delivered then row.(state := PUBLISHED, attempts := attempts)
    else if attempts >= maxAttempts then row.(state := DEAD_LETTER, attempts := attempts)
    else row.(state := PENDING, attempts := attempts, nextAttemptAt := now + BackoffSeconds(attempts))
  }

  /** A relay's open transaction: the rows it holds locked, how far it is, and its uncommitted writes. */
  datatype Transaction = Transaction(now: int, claimed: seq<RowId>, next: nat, local: map<RowId, Row>)

  datatype World = World(
    rows: map<RowId, Row>, lockedBy: map<RowId, RelayId>, open: map<RelayId, Transaction>,
    accepted: map<RowId, nat>, undone: map<RowId, nat>, failures: map<RowId, nat>)

  const EMPTY := World(map[], map[], map[], map[], map[], map[])

  datatype Limits = Limits(batchSize: nat, maxAttempts: nat)

  predicate Due(row: Row, now: int) {
    (row.state == PENDING || row.state == PROCESSING) && row.nextAttemptAt <= now
  }

  /** The claim query: due rows nobody has locked, oldest first, no more than a batch, none passed over. */
  ghost predicate IsClaim(w: World, ids: seq<RowId>, now: int, batchSize: nat) {
    && |ids| <= batchSize
    && (forall i :: 0 <= i < |ids| ==> ids[i] in w.rows && Due(w.rows[ids[i]], now) && ids[i] !in w.lockedBy)
    && (forall i, j :: 0 <= i < j < |ids| ==> ids[i] != ids[j] && w.rows[ids[i]].createdAt <= w.rows[ids[j]].createdAt)
    && (forall id :: id in w.rows && Due(w.rows[id], now) && id !in w.lockedBy && id !in ids ==>
          |ids| == batchSize && (forall i :: 0 <= i < |ids| ==> w.rows[ids[i]].createdAt <= w.rows[id].createdAt))
  }

  datatype Event =
    | Appended(id: RowId, event: EventBody, at: int)
    | Begins(r: RelayId, ids: seq<RowId>, now: int)
    | Delivers(r: RelayId, delivered: bool)
    | Commits(r: RelayId)
    | RollsBack(r: RelayId)

  function Append(w: World, id: RowId, event: EventBody, at: int): World {
    if id in w.rows then w
    else w.(rows := w.rows[id := Row(event, at, PENDING, 0, at)], accepted := w.accepted[id := 0],
            undone := w.undone[id := 0], failures := w.failures[id := 0])
  }

  ghost function Begin(w: World, limits: Limits, r: RelayId, ids: seq<RowId>, now: int): World {
    if r in w.open || !IsClaim(w, ids, now, limits.batchSize) then w
    else w.(open := w.open[r := Transaction(now, ids, 0, map[])], lockedBy := w.lockedBy + (map id | id in ids :: r))
  }

  /** The publisher's answer for the next row; an acceptance is final the moment it is given. */
  function Deliver(w: World, limits: Limits, r: RelayId, delivered: bool): World {
    if r !in w.open || w.open[r].next >= |w.open[r].claimed| || w.open[r].claimed[w.open[r].next] !in w.rows then w
    else
      var tx := w.open[r];
      var id := tx.claimed[tx.next];
      var row := Settled(w.rows[id], delivered, limits.maxAttempts, tx.now);
      w.(open := w.open[r := tx.(next := tx.next + 1, local := tx.local[id := row])],
         accepted := if delivered then w.accepted[id := Count(w.accepted, id) + 1] else w.accepted)
  }

  function Count(counts: map<RowId, nat>, id: RowId): nat {
    if id in counts then counts[id] else 0
  }

  predicate Wrote(tx: Transaction, id: RowId, delivered: bool) {
    id in tx.local && (tx.local[id].state == PUBLISHED) == delivered
  }

  function Tally(counts: map<RowId, nat>, tx: Transaction, delivered: bool): map<RowId, nat> {
    map id | id in counts :: counts[id] + if Wrote(tx, id, delivered) then 1 else 0
  }

  function Unlock(lockedBy: map<RowId, RelayId>, r: RelayId): map<RowId, RelayId> {
    map id | id in lockedBy && lockedBy[id] != r :: lockedBy[id]
  }

  /** Every write of the batch, once every claimed row has been delivered or refused. */
  function Commit(w: World, r: RelayId): World {
    if r !in w.open || w.open[r].next < |w.open[r].claimed| then w
    else w.(rows := w.rows + w.open[r].local, failures := Tally(w.failures, w.open[r], false),
            lockedBy := Unlock(w.lockedBy, r), open := w.open - {r})
  }

  /** An error, a lost connection or a dead process: none of the batch happened, but acceptances stand. */
  function Rollback(w: World, r: RelayId): World {
    if r !in w.open then w
    else w.(undone := Tally(w.undone, w.open[r], true), lockedBy := Unlock(w.lockedBy, r), open := w.open - {r})
  }

  ghost function Step(limits: Limits, w: World, e: Event): World {
    match e
    case Appended(id, event, at) => Append(w, id, event, at)
    case Begins(r, ids, now) => Begin(w, limits, r, ids, now)
    case Delivers(r, delivered) => Deliver(w, limits, r, delivered)
    case Commits(r) => Commit(w, r)
    case RollsBack(r) => Rollback(w, r)
  }

  ghost function Run(limits: Limits, w: World, events: seq<Event>): World {
    if events == [] then w
    else Step(limits, Run(limits, w, events[..|events| - 1]), events[|events| - 1])
  }

  // ---------------------------------------------------------------- what every run keeps

  /** A single failure settles a row for good when the limit is one or none. */
  function Ceiling(limits: Limits): nat {
    if limits.maxAttempts == 0 then 1 else limits.maxAttempts
  }

  /** The acceptances of a row that an open transaction has yet to commit or undo. */
  function Uncommitted(w: World, id: RowId): nat {
    if id in w.lockedBy && w.lockedBy[id] in w.open && Wrote(w.open[w.lockedBy[id]], id, true) then 1 else 0
  }

  ghost predicate RowSafe(limits: Limits, w: World, id: RowId)
    requires id in w.rows
  {
    var row := w.rows[id];
    && id in w.accepted && id in w.undone && id in w.failures
    && row.state != PROCESSING
    && (row.state == PENDING ==> row.attempts == w.failures[id] < Ceiling(limits))
    && (row.state == DEAD_LETTER ==> row.attempts == w.failures[id] == Ceiling(limits))
    && (row.state == PUBLISHED ==> row.attempts == w.failures[id] + 1 <= Ceiling(limits))
    && w.accepted[id] == w.undone[id] + Uncommitted(w, id) + if row.state == PUBLISHED then 1 else 0
  }

  /** An open transaction: its rows are still pending, and its writes are those of the deliveries made so far. */
  ghost predicate OpenSafe(limits: Limits, rows: map<RowId, Row>, tx: Transaction) {
    && tx.next <= |tx.claimed|
    && (forall i :: 0 <= i < |tx.claimed| ==> tx.claimed[i] in rows && Due(rows[tx.claimed[i]], tx.now))
    && (forall i, j :: 0 <= i < j < |tx.claimed| ==> tx.claimed[i] != tx.claimed[j])
    && (forall i :: 0 <= i < |tx.claimed| ==> (i < tx.next <==> tx.claimed[i] in tx.local))
    && (forall id :: id in tx.local ==>
          id in tx.claimed && tx.local[id] == Settled(rows[id], tx.local[id].state == PUBLISHED, limits.maxAttempts, tx.now))
  }

  /** The lock table: every claimed row is locked by its one claimant, and nothing else is locked. */
  ghost predicate LocksMatch(lockedBy: map<RowId, RelayId>, open: map<RelayId, Transaction>) {
    && (forall r, id :: r in open && id in open[r].claimed ==> id in lockedBy && lockedBy[id] == r)
    && (forall id :: id in lockedBy ==> lockedBy[id] in open && id in open[lockedBy[id]].claimed)
  }

  ghost predicate RowsSafe(limits: Limits, w: World) {
    forall id :: id in w.rows ==> RowSafe(limits, w, id)
  }

  ghost predicate OpensSafe(limits: Limits, rows: map<RowId, Row>, open: map<RelayId, Transaction>) {
    forall r :: r in open ==> OpenSafe(limits, rows, open[r])
  }

  /** Only rows that exist are counted. */
  ghost predicate CountsMatch(w: World) {
    w.failures.Keys == w.rows.Keys && w.undone.Keys == w.rows.Keys && w.accepted.Keys == w.rows.Keys
  }

  ghost predicate Safe(limits: Limits, w: World) {
    RowsSafe(limits, w) && OpensSafe(limits, w.rows, w.open) && LocksMatch(w.lockedBy, w.open) && CountsMatch(w)
  }

  lemma LocksAreOnRows(limits: Limits, w: World, id: RowId)
    requires OpensSafe(limits, w.rows, w.open) && LocksMatch(w.lockedBy, w.open) && id in w.lockedBy
    ensures id in w.rows
  {
    assert OpenSafe(limits, w.rows, w.open[w.lockedBy[id]]);
  }

  lemma AppendKeeps(limits: Limits, w: World, id: RowId, event: EventBody, at: int)
    requires Safe(limits, w)
    ensures Safe(limits, Append(w, id, event, at))
  {
    if id !in w.rows {
      hide RowsSafe, OpensSafe, LocksMatch;
      var v := Append(w, id, event, at);
      AppendForRows(limits, w, id, event, at);
      AppendForOpens(limits, w, id, v.rows[id]);
    }
  }

  lemma AppendForRows(limits: Limits, w: World, id: RowId, event: EventBody, at: int)
    requires Safe(limits, w) && id !in w.rows
    ensures RowsSafe(limits, Append(w, id, event, at))
  {
    hide OpensSafe, LocksMatch, Settled;
    var v := Append(w, id, event, at);
    if id in w.lockedBy {
      LocksAreOnRows(limits, w, id);
    }
    forall other | other in v.rows
      ensures RowSafe(limits, v, other)
    {
      if other != id {
        assert RowSafe(limits, w, other);
      }
    }
  }

  lemma AppendForOpens(limits: Limits, w: World, id: RowId, row: Row)
    requires OpensSafe(limits, w.rows, w.open) && id !in w.rows
    ensures OpensSafe(limits, w.rows[id := row], w.open)
  {
    hide Settled;
    forall r | r in w.open
      ensures OpenSafe(limits, w.rows[id := row], w.open[r])
    {
      assert OpenSafe(limits, w.rows, w.open[r]);
    }
  }

  lemma BeginKeeps(limits: Limits, w: World, r: RelayId, ids: seq<RowId>, now: int)
    requires Safe(limits, w)
    ensures Safe(limits, Begin(w, limits, r, ids, now))
  {
    hide RowSafe, LocksMatch, OpenSafe;
    if r !in w.open && IsClaim(w, ids, now, limits.batchSize) {
      var v := Begin(w, limits, r, ids, now);
      forall id | id in v.rows
        ensures RowSafe(limits, v, id)
      {
        BegunRow(limits, w, r, ids, now, id);
      }
      BeginLocks(limits, w, r, ids, now);
      BegunTransaction(limits, w, ids, now);
    }
  }

  lemma BegunTransaction(limits: Limits, w: World, ids: seq<RowId>, now: int)
    requires IsClaim(w, ids, now, limits.batchSize)
    ensures OpenSafe(limits, w.rows, Transaction(now, ids, 0, map[]))
  {
  }

  /** A fresh claim has written nothing yet, so it changes no row's account. */
  lemma BegunRow(limits: Limits, w: World, r: RelayId, ids: seq<RowId>, now: int, id: RowId)
    requires Safe(limits, w) && r !in w.open && IsClaim(w, ids, now, limits.batchSize) && id in w.rows
    ensures RowSafe(limits, Begin(w, limits, r, ids, now), id)
  {
    hide OpensSafe;
    assert RowSafe(limits, w, id);
  }

  lemma BeginLocks(limits: Limits, w: World, r: RelayId, ids: seq<RowId>, now: int)
    requires LocksMatch(w.lockedBy, w.open) && r !in w.open && IsClaim(w, ids, now, limits.batchSize)
    ensures LocksMatch(Begin(w, limits, r, ids, now).lockedBy, Begin(w, limits, r, ids, now).open)
  {
    hide IsClaim;
    ClaimsAreFree(w, ids, now, limits.batchSize);
  }

  lemma ClaimsAreFree(w: World, ids: seq<RowId>, now: int, batchSize: nat)
    requires IsClaim(w, ids, now, batchSize)
    ensures forall id :: id in ids ==> id !in w.lockedBy
  {
  }

  lemma DeliverKeeps(limits: Limits, w: World, r: RelayId, delivered: bool)
    requires Safe(limits, w)
    ensures Safe(limits, Deliver(w, limits, r, delivered))
  {
    hide RowSafe, OpenSafe, LocksMatch, Settled;
    if r in w.open && w.open[r].next < |w.open[r].claimed| {
      var tx := w.open[r];
      NextIsLocked(limits, w, r);
      var v := Deliver(w, limits, r, delivered);
      forall id | id in v.rows
        ensures RowSafe(limits, v, id)
      {
        DeliveredRow(limits, w, r, delivered, id);
      }
      DeliverInside(limits, w.rows, tx, delivered);
      DeliverLocks(w, r, v);
    }
  }

  lemma NextIsLocked(limits: Limits, w: World, r: RelayId)
    requires OpensSafe(limits, w.rows, w.open) && LocksMatch(w.lockedBy, w.open) && r in w.open
             && w.open[r].next < |w.open[r].claimed|
    ensures var id := w.open[r].claimed[w.open[r].next];
            id in w.rows && id in w.lockedBy && w.lockedBy[id] == r && id !in w.open[r].local
  {
    assert OpenSafe(limits, w.rows, w.open[r]);
  }

  lemma DeliverLocks(w: World, r: RelayId, v: World)
    requires LocksMatch(w.lockedBy, w.open) && r in w.open && v.lockedBy == w.lockedBy
    requires v.open.Keys == w.open.Keys && forall q :: q in w.open ==> v.open[q].claimed == w.open[q].claimed
    ensures LocksMatch(v.lockedBy, v.open)
  {
  }

  lemma DeliveredRow(limits: Limits, w: World, r: RelayId, delivered: bool, id: RowId)
    requires Safe(limits, w) && r in w.open && w.open[r].next < |w.open[r].claimed| && id in w.rows
    ensures id in Deliver(w, limits, r, delivered).rows && RowSafe(limits, Deliver(w, limits, r, delivered), id)
  {
    hide OpensSafe, LocksMatch, BackoffSeconds;
    NextIsLocked(limits, w, r);
    assert RowSafe(limits, w, id);
  }

  lemma DeliverInside(limits: Limits, rows: map<RowId, Row>, tx: Transaction, delivered: bool)
    requires OpenSafe(limits, rows, tx) && tx.next < |tx.claimed|
    ensures var id := tx.claimed[tx.next];
            OpenSafe(limits, rows, tx.(next := tx.next + 1,
                                       local := tx.local[id := Settled(rows[id], delivered, limits.maxAttempts, tx.now)]))
  {
    hide BackoffSeconds;
  }

  /** Releasing one relay's locks leaves every other relay's exactly as they were. */
  lemma UnlockKeepsLocks(w: World, r: RelayId, v: World)
    requires LocksMatch(w.lockedBy, w.open) && v.lockedBy == Unlock(w.lockedBy, r) && v.open == w.open - {r}
    ensures LocksMatch(v.lockedBy, v.open)
  {
  }

  lemma OthersUnaffected(limits: Limits, w: World, r: RelayId, q: RelayId)
    requires Safe(limits, w) && r in w.open && q in w.open && q != r
    ensures OpenSafe(limits, w.rows + w.open[r].local, w.open[q])
  {
    hide RowsSafe, Settled;
    assert OpenSafe(limits, w.rows, w.open[r]) && OpenSafe(limits, w.rows, w.open[q]);
    forall i | 0 <= i < |w.open[q].claimed|
      ensures w.open[q].claimed[i] !in w.open[r].local
    {
      assert w.lockedBy[w.open[q].claimed[i]] == q;
    }
  }

  /** Where a locked row stands with the relay that holds it. */
  lemma Holding(limits: Limits, w: World, r: RelayId, id: RowId)
    requires Safe(limits, w) && r in w.open && id in w.rows
    ensures id in w.open[r].local ==>
              id in w.lockedBy && w.lockedBy[id] == r && w.rows[id].state in {PENDING, PROCESSING}
              && w.open[r].local[id]
                 == Settled(w.rows[id], w.open[r].local[id].state == PUBLISHED, limits.maxAttempts, w.open[r].now)
    ensures w.open[r].next >= |w.open[r].claimed| && id in w.lockedBy && w.lockedBy[id] == r ==> id in w.open[r].local
  {
    hide RowSafe, Settled;
    assert OpenSafe(limits, w.rows, w.open[r]);
  }

  lemma CommittedRow(limits: Limits, w: World, r: RelayId, id: RowId)
    requires Safe(limits, w) && r in w.open && w.open[r].next >= |w.open[r].claimed| && id in w.rows
    ensures RowSafe(limits, Commit(w, r), id)
  {
    hide BackoffSeconds, OpensSafe, LocksMatch;
    assert RowSafe(limits, w, id);
    Holding(limits, w, r, id);
  }

  lemma LocalIsOfRows(limits: Limits, rows: map<RowId, Row>, tx: Transaction)
    requires OpenSafe(limits, rows, tx)
    ensures (rows + tx.local).Keys == rows.Keys
  {
    hide Settled;
  }

  lemma CommitKeeps(limits: Limits, w: World, r: RelayId)
    requires Safe(limits, w)
    ensures Safe(limits, Commit(w, r))
  {
    hide RowSafe, OpenSafe, LocksMatch;
    if r in w.open && w.open[r].next >= |w.open[r].claimed| {
      var v := Commit(w, r);
      LocalIsOfRows(limits, w.rows, w.open[r]);
      forall id | id in v.rows
        ensures RowSafe(limits, v, id)
      {
        assert id in w.rows.Keys;
        CommittedRow(limits, w, r, id);
      }
      forall q | q in v.open
        ensures OpenSafe(limits, v.rows, v.open[q])
      {
        OthersUnaffected(limits, w, r, q);
      }
      UnlockKeepsLocks(w, r, v);
    }
  }

  lemma RolledBackRow(limits: Limits, w: World, r: RelayId, id: RowId)
    requires Safe(limits, w) && r in w.open && id in w.rows
    ensures RowSafe(limits, Rollback(w, r), id)
  {
    hide BackoffSeconds, OpensSafe, LocksMatch;
    assert RowSafe(limits, w, id);
    Holding(limits, w, r, id);
  }

  lemma RollbackKeeps(limits: Limits, w: World, r: RelayId)
    requires Safe(limits, w)
    ensures Safe(limits, Rollback(w, r))
  {
    hide RowSafe, OpenSafe, LocksMatch;
    if r in w.open {
      var v := Rollback(w, r);
      forall id | id in v.rows
        ensures RowSafe(limits, v, id)
      {
        RolledBackRow(limits, w, r, id);
      }
      UnlockKeepsLocks(w, r, v);
    }
  }

  lemma StepKeeps(limits: Limits, w: World, e: Event)
    requires Safe(limits, w)
    ensures Safe(limits, Step(limits, w, e))
  {
    hide Safe, Append, Begin, Deliver, Commit, Rollback;
    match e
    case Appended(id, event, at) => AppendKeeps(limits, w, id, event, at);
    case Begins(r, ids, now) => BeginKeeps(limits, w, r, ids, now);
    case Delivers(r, delivered) => DeliverKeeps(limits, w, r, delivered);
    case Commits(r) => CommitKeeps(limits, w, r);
    case RollsBack(r) => RollbackKeeps(limits, w, r);
  }

  lemma {:induction false} SafeOnwards(limits: Limits, w: World, events: seq<Event>)
    requires Safe(limits, w)
    ensures Safe(limits, Run(limits, w, events))
  {
    if events != [] {
      SafeOnwards(limits, w, events[..|events| - 1]);
      StepKeeps(limits, Run(limits, w, events[..|events| - 1]), events[|events| - 1]);
    }
  }

  lemma EveryRunIsSafe(limits: Limits, events: seq<Event>)
    ensures Safe(limits, Run(limits, EMPTY, events))
  {
    SafeOnwards(limits, EMPTY, events);
  }

  // ---------------------------------------------------------------- what that means

  /**
   * At least once, and exactly accounted for: the publisher has accepted a row as often as a rollback undid an
   * acceptance of it, plus once if it is PUBLISHED or an open transaction is about to say so. In particular
   * PUBLISHED rows were accepted, and never more than once more than was undone.
   */
  lemma AcceptancesAreAccounted(limits: Limits, events: seq<Event>, id: RowId)
    requires id in Run(limits, EMPTY, events).rows
    ensures var w := Run(limits, EMPTY, events);
            && id in w.accepted && id in w.undone
            && w.accepted[id] <= 1 + w.undone[id]
            && (w.rows[id].state == PUBLISHED ==> w.accepted[id] == 1 + w.undone[id])
            && (w.open == map[] && w.rows[id].state != PUBLISHED ==> w.accepted[id] == w.undone[id])
  {
    hide OpenSafe, LocksMatch;
    var w := Run(limits, EMPTY, events);
    EveryRunIsSafe(limits, events);
    assert RowSafe(limits, w, id);
    if w.rows[id].state == PUBLISHED && Uncommitted(w, id) == 1 {
      UncommittedIsPending(limits, w, id);
    }
  }

  lemma UncommittedIsPending(limits: Limits, w: World, id: RowId)
    requires Safe(limits, w) && id in w.rows && Uncommitted(w, id) == 1
    ensures w.rows[id].state in {PENDING, PROCESSING}
  {
    hide RowSafe;
    assert OpenSafe(limits, w.rows, w.open[w.lockedBy[id]]);
  }

  /**
   * Attempts are committed failures, plus the delivery of a published row. A row is dead-lettered exactly when
   * its failures have reached the limit, and nothing is attempted beyond the limit. With a limit of 0 the
   * first failure is already the last.
   */
  lemma DeadLettersHaveFailed(limits: Limits, events: seq<Event>, id: RowId)
    requires id in Run(limits, EMPTY, events).rows
    ensures var w := Run(limits, EMPTY, events);
            && id in w.failures
            && w.rows[id].attempts == w.failures[id] + (if w.rows[id].state == PUBLISHED then 1 else 0) <= Ceiling(limits)
            && (w.rows[id].state == DEAD_LETTER <==> w.failures[id] == Ceiling(limits))
  {
    hide OpenSafe, LocksMatch;
    EveryRunIsSafe(limits, events);
    assert RowSafe(limits, Run(limits, EMPTY, events), id);
  }

  /** Skip-locked claims never overlap: two open transactions hold no row in common. */
  lemma ClaimsAreDisjoint(limits: Limits, events: seq<Event>, p: RelayId, q: RelayId, id: RowId)
    ensures var w := Run(limits, EMPTY, events);
            p in w.open && q in w.open && id in w.open[p].claimed && id in w.open[q].claimed ==> p == q
  {
    hide OpensSafe, RowsSafe, CountsMatch, Run;
    EveryRunIsSafe(limits, events);
    var w := Run(limits, EMPTY, events);
    if p in w.open && q in w.open && id in w.open[p].claimed && id in w.open[q].claimed {
      assert w.lockedBy[id] == p && w.lockedBy[id] == q;
    }
  }

  /** The commit of a batch that wrote the row, and with which answer. */
  predicate CommitsRow(w: World, e: Event, id: RowId, delivered: bool) {
    e.Commits? && e.r in w.open && w.open[e.r].next >= |w.open[e.r].claimed| && Wrote(w.open[e.r], id, delivered)
  }

  /** When the row's last committed failure was delivered, going by its relay's clock. */
  ghost function LastFailure(limits: Limits, events: seq<Event>, id: RowId): Option<int> {
    if events == [] then None
    else
      var w, e := Run(limits, EMPTY, events[..|events| - 1]), events[|events| - 1];
      if CommitsRow(w, e, id, false) then Some(w.open[e.r].now) else LastFailure(limits, events[..|events| - 1], id)
  }

  /** A row waiting to be delivered: new, or held back since its last failure for as long as its failures ask. */
  predicate WaitsItsTime(row: Row, failure: Option<int>) {
    match failure
    case None => row.attempts == 0 && row.nextAttemptAt == row.createdAt
    case Some(at) => row.attempts > 0 && row.nextAttemptAt == at + BackoffSeconds(row.attempts)
  }

  /** A row comes into being, is settled by a commit, or stays as it is. */
  lemma RowChanges(limits: Limits, w: World, e: Event, id: RowId)
    requires Safe(limits, w)
    ensures var v := Step(limits, w, e);
            && (id in v.rows && id !in w.rows ==>
                  v.rows[id].state == PENDING && v.rows[id].attempts == 0 && v.rows[id].nextAttemptAt == v.rows[id].createdAt)
            && (id in w.rows ==> id in v.rows)
            && (id in w.rows && v.rows[id] != w.rows[id] ==> CommitsRow(w, e, id, true) || CommitsRow(w, e, id, false))
            && (forall delivered :: CommitsRow(w, e, id, delivered) ==>
                  id in w.rows && id in v.rows
                  && v.rows[id] == Settled(w.rows[id], delivered, limits.maxAttempts, w.open[e.r].now))
  {
    hide RowsSafe, LocksMatch, CountsMatch, IsClaim, Settled, Tally, Unlock;
    if e.Commits? && e.r in w.open {
      assert OpenSafe(limits, w.rows, w.open[e.r]);
    }
  }

  /** An appended row is the event, new and due from the moment it was appended; no other row is touched. */
  lemma AppendedIsTheEvent(limits: Limits, w: World, id: RowId, event: EventBody, at: int)
    requires id !in w.rows
    ensures Step(limits, w, Appended(id, event, at)).rows == w.rows[id := Row(event, at, PENDING, 0, at)]
  {
  }

  /** The counts an observer keeps are counts of what happened. */
  lemma CountsAreWhatHappened(limits: Limits, w: World, e: Event, id: RowId)
    requires Safe(limits, w) && id in w.rows
    ensures var v := Step(limits, w, e);
            && id in v.accepted && id in v.undone && id in v.failures
            && id in w.accepted && id in w.undone && id in w.failures
            && v.accepted[id] == w.accepted[id]
                 + (if e.Delivers? && e.delivered && e.r in w.open && w.open[e.r].next < |w.open[e.r].claimed|
                       && w.open[e.r].claimed[w.open[e.r].next] == id then 1 else 0)
            && v.undone[id] == w.undone[id]
                 + (if e.RollsBack? && e.r in w.open && id in w.open[e.r].local
                       && w.open[e.r].local[id].state == PUBLISHED then 1 else 0)
            && v.failures[id] == w.failures[id]
                 + (if e.Commits? && e.r in w.open && w.open[e.r].next >= |w.open[e.r].claimed| && id in w.open[e.r].local
                       && w.open[e.r].local[id].state != PUBLISHED then 1 else 0)
  {
    hide OpensSafe, LocksMatch, IsClaim, Settled, Unlock;
    assert RowSafe(limits, w, id);
  }

  /** The due rows nobody holds. */
  ghost function FreeAndDue(w: World, now: int): set<RowId> {
    set id | id in w.rows && w.rows[id].state in {PENDING, PROCESSING} && w.rows[id].nextAttemptAt <= now && id !in w.lockedBy
  }

  /**
   * The oldest of them, in order: all if the batch has room for them, else as many as it has, and none that is
   * younger than one left behind.
   */
  ghost predicate OldestOf(w: World, ids: seq<RowId>, now: int, batchSize: nat) {
    var free, taken := FreeAndDue(w, now), set id | id in ids;
    && (forall i :: 0 <= i < |ids| ==> ids[i] in free) && |taken| == |ids|
    && |ids| == (if |free| < batchSize then |free| else batchSize)
    && (forall a, b :: a in taken && b in free - taken ==> w.rows[a].createdAt <= w.rows[b].createdAt)
    && (forall i, j :: 0 <= i < j < |ids| ==> w.rows[ids[i]].createdAt <= w.rows[ids[j]].createdAt)
  }

  /** A claim takes the oldest of them, and may take any such batch. */
  lemma ClaimsTakeTheOldest(w: World, ids: seq<RowId>, now: int, batchSize: nat)
    ensures IsClaim(w, ids, now, batchSize) <==> OldestOf(w, ids, now, batchSize)
  {
    if IsClaim(w, ids, now, batchSize) {
      ClaimIsOldest(w, ids, now, batchSize);
    }
    if OldestOf(w, ids, now, batchSize) {
      OldestIsClaim(w, ids, now, batchSize);
    }
  }

  lemma ClaimIsOldest(w: World, ids: seq<RowId>, now: int, batchSize: nat)
    requires IsClaim(w, ids, now, batchSize)
    ensures OldestOf(w, ids, now, batchSize)
  {
    var free, taken := FreeAndDue(w, now), set id | id in ids;
    forall id | id in taken
      ensures id in free
    {
      var i :| 0 <= i < |ids| && ids[i] == id;
    }
    DistinctIds(ids);
    Subsets(taken, free);
    if b :| b in free - taken {
      assert b !in ids;
    } else {
      forall id | id in free
        ensures id in taken
      {
        assert id in taken || id in free - taken;
      }
      assert taken == free;
    }
    forall a, b | a in taken && b in free - taken
      ensures w.rows[a].createdAt <= w.rows[b].createdAt
    {
      var i :| 0 <= i < |ids| && ids[i] == a;
    }
  }

  lemma OldestIsClaim(w: World, ids: seq<RowId>, now: int, batchSize: nat)
    requires OldestOf(w, ids, now, batchSize)
    ensures IsClaim(w, ids, now, batchSize)
  {
    var free, taken := FreeAndDue(w, now), set id | id in ids;
    SameSizeDistinct(ids);
    forall i | 0 <= i < |ids|
      ensures ids[i] in free
    {
      assert ids[i] in taken;
    }
    forall id | id in w.rows && Due(w.rows[id], now) && id !in w.lockedBy && id !in ids
      ensures |ids| == batchSize && forall i :: 0 <= i < |ids| ==> w.rows[ids[i]].createdAt <= w.rows[id].createdAt
    {
      assert id in free - taken;
      Subsets(taken, free - {id});
      assert forall i :: 0 <= i < |ids| ==> ids[i] in taken;
    }
  }

  /** As many different ones as places: none is repeated. */
  lemma {:induction false} SameSizeDistinct(ids: seq<RowId>)
    requires |set id | id in ids| == |ids|
    ensures forall i, j :: 0 <= i < j < |ids| ==> ids[i] != ids[j]
  {
    forall i, j | 0 <= i < j < |ids|
      ensures ids[i] != ids[j]
    {
      if ids[i] == ids[j] {
        var rest := ids[..i] + ids[i + 1..];
        assert rest[j - 1] == ids[j];
        forall id | id in ids
          ensures id in rest
        {
          var k :| 0 <= k < |ids| && ids[k] == id;
          assert k < i ==> rest[k] == id;
          assert k > i ==> rest[k - 1] == id;
        }
        assert (set id | id in ids) == (set id | id in rest);
        AtMostAsMany(rest);
      }
    }
  }

  lemma {:induction false} AtMostAsMany(ids: seq<RowId>)
    ensures |set id | id in ids| <= |ids|
  {
    if ids != [] {
      var n := |ids| - 1;
      AtMostAsMany(ids[..n]);
      assert ids == ids[..n] + [ids[n]];
      assert (set id | id in ids) == (set id | id in ids[..n]) + {ids[n]};
    }
  }

  lemma {:induction false} DistinctIds(ids: seq<RowId>)
    requires forall i, j :: 0 <= i < j < |ids| ==> ids[i] != ids[j]
    ensures |set id | id in ids| == |ids|
  {
    if ids != [] {
      var n := |ids| - 1;
      DistinctIds(ids[..n]);
      AddedToTheSet(ids, n);
    }
  }

  lemma AddedToTheSet(ids: seq<RowId>, n: nat)
    requires n == |ids| - 1 && ids[n] !in ids[..n]
    ensures |set id | id in ids| == |set id | id in ids[..n]| + 1
  {
    var before := set id | id in ids[..n];
    assert ids == ids[..n] + [ids[n]];
    assert (set id | id in ids) == before + {ids[n]};
  }

  lemma Subsets(a: set<RowId>, b: set<RowId>)
    requires a <= b
    ensures |a| <= |b| && (|a| == |b| ==> a == b)
  {
    assert b == a + (b - a);
  }

  lemma {:induction false} EveryRowWaitsItsTime(limits: Limits, events: seq<Event>, id: RowId)
    ensures var w, failure := Run(limits, EMPTY, events), LastFailure(limits, events, id);
            && (id !in w.rows ==> failure.None?)
            && (id in w.rows && w.rows[id].state == PENDING ==> WaitsItsTime(w.rows[id], failure))
  {
    hide Step, Safe, BackoffSeconds, CommitsRow;
    if events != [] {
      var before, e := events[..|events| - 1], events[|events| - 1];
      EveryRowWaitsItsTime(limits, before, id);
      EveryRunIsSafe(limits, before);
      RowChanges(limits, Run(limits, EMPTY, before), e, id);
    }
  }

  /**
   * Over any run with any number of relays: a relay holds a row only once the backoff of all its failures has
   * gone by since the last of them, and a row that never failed from the moment it was appended.
   */
  lemma RetriesWaitOutTheirBackoff(limits: Limits, events: seq<Event>, r: RelayId, id: RowId)
    requires r in Run(limits, EMPTY, events).open && id in Run(limits, EMPTY, events).open[r].claimed
    ensures var w := Run(limits, EMPTY, events);
            && id in w.rows && id in w.failures
            && match LastFailure(limits, events, id)
               case None => w.failures[id] == 0 && w.open[r].now >= w.rows[id].createdAt
               case Some(at) => w.failures[id] > 0 && w.open[r].now >= at + BackoffSeconds(w.failures[id])
  {
    hide Run, Safe, OpenSafe, RowSafe, BackoffSeconds, LastFailure;
    NobodyRetriesEarly(limits, events, r, id);
    EveryRowWaitsItsTime(limits, events, id);
    DuePendingRow(limits, events, id, Run(limits, EMPTY, events).open[r].now);
  }

  lemma DuePendingRow(limits: Limits, events: seq<Event>, id: RowId, now: int)
    requires var w := Run(limits, EMPTY, events); id in w.rows && Due(w.rows[id], now)
    ensures var w := Run(limits, EMPTY, events);
            id in w.failures && w.rows[id].state == PENDING && w.rows[id].attempts == w.failures[id]
              && w.rows[id].nextAttemptAt <= now
  {
    hide Run;
    EveryRunIsSafe(limits, events);
    assert RowSafe(limits, Run(limits, EMPTY, events), id);
  }

  /** No relay ever holds a row before its time: what an open transaction has claimed was due when it began. */
  lemma NobodyRetriesEarly(limits: Limits, events: seq<Event>, r: RelayId, id: RowId)
    ensures var w := Run(limits, EMPTY, events);
            r in w.open && id in w.open[r].claimed ==> id in w.rows && Due(w.rows[id], w.open[r].now)
  {
    hide RowsSafe, LocksMatch, CountsMatch, Run, Settled, Due;
    EveryRunIsSafe(limits, events);
    var w := Run(limits, EMPTY, events);
    if r in w.open {
      assert OpenSafe(limits, w.rows, w.open[r]);
    }
  }

  /** No row is lost: it keeps its event for good, and once PUBLISHED or DEAD_LETTER it never changes again. */
  lemma {:induction false} NoRowIsLost(limits: Limits, events: seq<Event>, more: seq<Event>, id: RowId)
    requires id in Run(limits, EMPTY, events).rows
    ensures var w, v := Run(limits, EMPTY, events), Run(limits, Run(limits, EMPTY, events), more);
            && id in v.rows && v.rows[id].event == w.rows[id].event && v.rows[id].createdAt == w.rows[id].createdAt
            && (w.rows[id].state in {PUBLISHED, DEAD_LETTER} ==> v.rows[id] == w.rows[id])
  {
    hide Safe, Step;
    var w := Run(limits, EMPTY, events);
    EveryRunIsSafe(limits, events);
    if more != [] {
      NoRowIsLost(limits, events, more[..|more| - 1], id);
      SafeOnwards(limits, w, more[..|more| - 1]);
      RowKept(limits, Run(limits, w, more[..|more| - 1]), more[|more| - 1], id);
    }
  }

  lemma RowKept(limits: Limits, w: World, e: Event, id: RowId)
    requires Safe(limits, w) && id in w.rows
    ensures var v := Step(limits, w, e);
            && id in v.rows && v.rows[id].event == w.rows[id].event && v.rows[id].createdAt == w.rows[id].createdAt
            && (w.rows[id].state in {PUBLISHED, DEAD_LETTER} ==> v.rows[id] == w.rows[id])
  {
    hide RowSafe, LocksMatch, IsClaim, Tally, Unlock, BackoffSeconds;
    if e.Commits? && e.r in w.open {
      assert OpenSafe(limits, w.rows, w.open[e.r]);
    }
  }

  // ---------------------------------------------------------------- the relay's code

  /** What delivering one row came to; an exception ends the batch. */
  datatype Answer = Delivered | Refused | Threw

  datatype DrainResult = DrainResult(claimed: nat, published: nat, retried: nat, deadLettered: nat)

  /** How many of the first answers came before an exception. */
  function Settling(answers: seq<Answer>): (n: nat)
    ensures n <= |answers|
  {
    if answers == [] || answers[0].Threw? then 0 else 1 + Settling(answers[1..])
  }

  lemma {:induction false} SettlingStopsAtTheFirstThrow(answers: seq<Answer>)
    ensures forall i :: 0 <= i < Settling(answers) ==> !answers[i].Threw?
    ensures Settling(answers) < |answers| ==> answers[Settling(answers)].Threw?
  {
    if answers != [] && !answers[0].Threw? {
      SettlingStopsAtTheFirstThrow(answers[1..]);
    }
  }

  function DeliverAll(w: World, limits: Limits, r: RelayId, answers: seq<Answer>): World {
    if answers == [] then w
    else Deliver(DeliverAll(w, limits, r, answers[..|answers| - 1]), limits, r, answers[|answers| - 1].Delivered?)
  }

  /** One drain with nothing in between: claim, deliver until an exception, then commit or roll back. */
  ghost function Drain(w: World, limits: Limits, r: RelayId, ids: seq<RowId>, now: int, answers: seq<Answer>): World
    requires |answers| == |ids|
  {
    var settling := Settling(answers);
    var delivered := DeliverAll(Begin(w, limits, r, ids, now), limits, r, answers[..settling]);
    if settling < |answers| then Rollback(delivered, r) else Commit(delivered, r)
  }

  /** How many of the first `k` claimed rows came to each end. */
  function Ends(rows: map<RowId, Row>, limits: Limits, ids: seq<RowId>, answers: seq<Answer>, k: nat): DrainResult
    requires k <= |ids| == |answers| && forall i :: 0 <= i < |ids| ==> ids[i] in rows
  {
    if k == 0 then DrainResult(0, 0, 0, 0)
    else
      var before := Ends(rows, limits, ids, answers, k - 1).(claimed := k);
      if answers[k - 1].Delivered? then before.(published := before.published + 1)
      else if rows[ids[k - 1]].attempts + 1 >= limits.maxAttempts then before.(deadLettered := before.deadLettered + 1)
      else before.(retried := before.retried + 1)
  }

  /** A relay in the middle of its batch, with the committed rows still as they were. */
  ghost predicate InBatch(w: World, rows: map<RowId, Row>, r: RelayId, tx: Transaction) {
    w.rows == rows && r in w.open && w.open[r] == tx
  }

  lemma NothingDelivered(begun: World, limits: Limits, r: RelayId, answers: seq<Answer>, rows: map<RowId, Row>)
    requires begun.rows == rows && r in begun.open
    ensures InBatch(DeliverAll(begun, limits, r, answers[..0]), rows, r, begun.open[r])
  {
  }

  lemma DeliverNext(begun: World, limits: Limits, r: RelayId, answers: seq<Answer>, rows: map<RowId, Row>, tx: Transaction)
    requires tx.next < |answers| == |tx.claimed| && tx.claimed[tx.next] in rows
    requires InBatch(DeliverAll(begun, limits, r, answers[..tx.next]), rows, r, tx)
    ensures var id := tx.claimed[tx.next];
            var row := Settled(rows[id], answers[tx.next].Delivered?, limits.maxAttempts, tx.now);
            InBatch(DeliverAll(begun, limits, r, answers[..tx.next + 1]), rows, r,
                    tx.(next := tx.next + 1, local := tx.local[id := row]))
  {
    hide Settled;
    assert answers[..tx.next + 1][..tx.next] == answers[..tx.next];
  }

  function Deliveries(r: RelayId, answers: seq<Answer>): seq<Event> {
    seq(|answers|, i requires 0 <= i < |answers| => Delivers(r, answers[i].Delivered?))
  }

  lemma {:induction false} DeliveriesAreARun(limits: Limits, w: World, events: seq<Event>, r: RelayId, answers: seq<Answer>)
    ensures Run(limits, w, events + Deliveries(r, answers)) == DeliverAll(Run(limits, w, events), limits, r, answers)
  {
    hide Deliver;
    if answers == [] {
      assert events + Deliveries(r, answers) == events;
    } else {
      var k := |answers| - 1;
      DeliveriesAreARun(limits, w, events, r, answers[..k]);
      assert (events + Deliveries(r, answers))[..|events| + k] == events + Deliveries(r, answers[..k]);
    }
  }

  /** A whole drain is one of the interleavings the results above range over. */
  lemma DrainIsARun(limits: Limits, w: World, events: seq<Event>, r: RelayId, ids: seq<RowId>, now: int, answers: seq<Answer>)
    requires |answers| == |ids|
    ensures var n := Settling(answers);
            var all := events + [Begins(r, ids, now)] + Deliveries(r, answers[..n])
                       + [if n < |answers| then RollsBack(r) else Commits(r)];
            Run(limits, w, all) == Drain(Run(limits, w, events), limits, r, ids, now, answers)
  {
    hide Begin, DeliverAll, Commit, Rollback;
    var n := Settling(answers);
    var begun := events + [Begins(r, ids, now)];
    assert begun[..|events|] == events;
    DeliveriesAreARun(limits, w, begun, r, answers[..n]);
    var last := if n < |answers| then RollsBack(r) else Commits(r);
    assert (begun + Deliveries(r, answers[..n]) + [last])[..|begun| + n] == begun + Deliveries(r, answers[..n]);
  }

  /** What delivering a row once makes of it: one more attempt, and published, given up or held back. */
  predicate EndsUp(was: Row, row: Row, delivered: bool, maxAttempts: nat, now: int) {
    && row.event == was.event && row.createdAt == was.createdAt && row.attempts == was.attempts + 1
    && (delivered ==> row.state == PUBLISHED && row.nextAttemptAt == was.nextAttemptAt)
    && (!delivered && was.attempts + 1 >= maxAttempts ==> row.state == DEAD_LETTER && row.nextAttemptAt == was.nextAttemptAt)
    && (!delivered && was.attempts + 1 < maxAttempts ==>
          row.state == PENDING && row.nextAttemptAt == now + BackoffSeconds(was.attempts + 1))
  }

  /** The rows of a batch that are in a state. */
  function RowsIn(rows: map<RowId, Row>, ids: seq<RowId>, state: State): set<RowId> {
    set id | id in ids && id in rows && rows[id].state == state
  }

  /** One more row of the batch is in the state it was given, and in no other. */
  lemma OneRowMore(rows: map<RowId, Row>, ids: seq<RowId>, k: nat, row: Row, state: State)
    requires k < |ids| && forall i :: 0 <= i < k ==> ids[i] != ids[k]
    ensures |RowsIn(rows[ids[k] := row], ids[..k + 1], state)|
         == |RowsIn(rows, ids[..k], state)| + if row.state == state then 1 else 0
  {
    RowsAfter(rows, ids[..k], ids[k], row, state);
    assert ids[..k + 1] == ids[..k] + [ids[k]];
  }

  lemma RowsAfter(rows: map<RowId, Row>, ids: seq<RowId>, id: RowId, row: Row, state: State)
    requires id !in ids
    ensures RowsIn(rows[id := row], ids + [id], state) == RowsIn(rows, ids, state) + if row.state == state then {id} else {}
    ensures id !in RowsIn(rows, ids, state)
  {
    forall x
      ensures x in RowsIn(rows[id := row], ids + [id], state)
              <==> x in RowsIn(rows, ids, state) || (x == id && row.state == state)
    {
      assert x in ids + [id] <==> x in ids || x == id;
    }
  }

  /** The first `k` rows of a batch have each been written as its answer says, and counted by how they ended. */
  ghost predicate BatchSoFar(rows: map<RowId, Row>, limits: Limits, ids: seq<RowId>, answers: seq<Answer>, now: int, k: nat,
                             local: map<RowId, Row>, ends: DrainResult) {
    && k <= |ids| == |answers|
    && (forall id :: id in local <==> id in ids[..k])
    && (forall i :: 0 <= i < k ==>
          ids[i] in local && ids[i] in rows
          && EndsUp(rows[ids[i]], local[ids[i]], answers[i].Delivered?, limits.maxAttempts, now))
    && ends.published == |RowsIn(local, ids[..k], PUBLISHED)|
    && ends.retried == |RowsIn(local, ids[..k], PENDING)|
    && ends.deadLettered == |RowsIn(local, ids[..k], DEAD_LETTER)|
  }

  lemma NoRowsYet(rows: map<RowId, Row>, limits: Limits, ids: seq<RowId>, answers: seq<Answer>, now: int)
    requires |ids| == |answers|
    ensures BatchSoFar(rows, limits, ids, answers, now, 0, map[], DrainResult(0, 0, 0, 0))
  {
    assert forall state :: RowsIn(map[], ids[..0], state) == {};
  }

  lemma BatchNext(rows: map<RowId, Row>, limits: Limits, ids: seq<RowId>, answers: seq<Answer>, now: int, k: nat,
                  local: map<RowId, Row>, row: Row, ends: DrainResult)
    requires BatchSoFar(rows, limits, ids, answers, now, k, local, ends) && k < |ids| && ids[k] in rows
    requires forall i :: 0 <= i < k ==> ids[i] != ids[k]
    requires EndsUp(rows[ids[k]], row, answers[k].Delivered?, limits.maxAttempts, now)
    ensures var more := DrainResult(k + 1, ends.published + (if row.state == PUBLISHED then 1 else 0),
                                    ends.retried + (if row.state == PENDING then 1 else 0),
                                    ends.deadLettered + (if row.state == DEAD_LETTER then 1 else 0));
            BatchSoFar(rows, limits, ids, answers, now, k + 1, local[ids[k] := row], more)
  {
    hide EndsUp, RowsIn;
    assert ids[..k + 1] == ids[..k] + [ids[k]];
    OneRowMore(local, ids, k, row, PUBLISHED);
    OneRowMore(local, ids, k, row, PENDING);
    OneRowMore(local, ids, k, row, DEAD_LETTER);
  }

  /**
   * A committed batch: each of its rows has been written as its answer says, no other row is touched, and the
   * counters are the numbers of its rows in each state.
   */
  ghost predicate BatchIsDone(before: map<RowId, Row>, after: map<RowId, Row>, limits: Limits, ids: seq<RowId>,
                              answers: seq<Answer>, now: int, result: DrainResult) {
    && after.Keys == before.Keys && |ids| == |answers|
    && (forall id :: id in before && id !in ids ==> after[id] == before[id])
    && (forall i :: 0 <= i < |ids| ==>
          ids[i] in before && ids[i] in after
          && EndsUp(before[ids[i]], after[ids[i]], answers[i].Delivered?, limits.maxAttempts, now))
    && result.published == |RowsIn(after, ids, PUBLISHED)|
    && result.retried == |RowsIn(after, ids, PENDING)|
    && result.deadLettered == |RowsIn(after, ids, DEAD_LETTER)|
  }

  lemma BatchEnds(rows: map<RowId, Row>, limits: Limits, ids: seq<RowId>, answers: seq<Answer>, now: int,
                  local: map<RowId, Row>, ends: DrainResult)
    requires BatchSoFar(rows, limits, ids, answers, now, |ids|, local, ends)
    ensures BatchIsDone(rows, rows + local, limits, ids, answers, now, ends)
  {
    hide EndsUp;
    assert ids[..|ids|] == ids;
    forall id | id in ids
      ensures id in rows && id in local
    {
      var i :| 0 <= i < |ids| && ids[i] == id;
    }
    assert forall state :: RowsIn(rows + local, ids, state) == RowsIn(local, ids, state);
  }

  class Relay {
    var outbox: map<RowId, Row>
    ghost var lockedBy: map<RowId, RelayId>
    ghost var open: map<RelayId, Transaction>
    ghost var accepted: map<RowId, nat>
    ghost var undone: map<RowId, nat>
    ghost var failures: map<RowId, nat>
    const limits: Limits

    ghost function View(): World
      reads this
    {
      World(outbox, lockedBy, open, accepted, undone, failures)
    }

    constructor (batchSize: Option<nat>, maxAttempts: Option<nat>)
      ensures View() == EMPTY
      ensures limits == Limits(if batchSize.Some? then batchSize.value else 100,
                               if maxAttempts.Some? then maxAttempts.value else 8)
    {
      outbox, lockedBy, open, accepted, undone, failures := map[], map[], map[], map[], map[], map[];
      limits := Limits(if batchSize.Some? then batchSize.value else 100,
                       if maxAttempts.Some? then maxAttempts.value else 8);
    }

    /** Delivers the claimed rows in order, keeping the writes local, until one delivery throws. */
    method DeliverClaimed(r: RelayId, ids: seq<RowId>, now: int, answers: seq<Answer>, ghost begun: World)
      returns (settled: nat, local: map<RowId, Row>, ends: DrainResult)
      requires |answers| == |ids| && begun.rows == outbox && forall i :: 0 <= i < |ids| ==> ids[i] in outbox
      requires r in begun.open && begun.open[r] == Transaction(now, ids, 0, map[])
      requires forall i, j :: 0 <= i < j < |ids| ==> ids[i] != ids[j]
      ensures settled == Settling(answers) && ends == Ends(outbox, limits, ids, answers, settled)
      ensures ends.claimed == settled == ends.published + ends.retried + ends.deadLettered
      ensures InBatch(DeliverAll(begun, limits, r, answers[..settled]), outbox, r, Transaction(now, ids, settled, local))
      ensures BatchSoFar(outbox, limits, ids, answers, now, settled, local, ends)
      ensures settled == |ids| || answers[settled].Threw?
      ensures forall i :: 0 <= i < settled ==> !answers[i].Threw?
    {
      hide BackoffSeconds, DeliverAll, InBatch, BatchSoFar;
      NoRowsYet(outbox, limits, ids, answers, now);
      SettlingStopsAtTheFirstThrow(answers);
      local, settled := map[], 0;
      var published, retried, deadLettered := 0, 0, 0;
      NothingDelivered(begun, limits, r, answers, outbox);
      while settled < |ids| && !answers[settled].Threw?
        invariant settled <= Settling(answers)
        invariant InBatch(DeliverAll(begun, limits, r, answers[..settled]), outbox, r, Transaction(now, ids, settled, local))
        invariant DrainResult(settled, published, retried, deadLettered) == Ends(outbox, limits, ids, answers, settled)
        invariant settled == published + retried + deadLettered
        invariant BatchSoFar(outbox, limits, ids, answers, now, settled, local,
                             DrainResult(settled, published, retried, deadLettered))
      {
        ghost var before, soFar := local, DrainResult(settled, published, retried, deadLettered);
        var row := outbox[ids[settled]];
        var attempts := row.attempts + 1;
        DeliverNext(begun, limits, r, answers, outbox, Transaction(now, ids, settled, local));
        if answers[settled].Delivered? {
          local := local[ids[settled] := row.(state := PUBLISHED, attempts := attempts)];
          published := published + 1;
        } else if attempts >= limits.maxAttempts {
          local := local[ids[settled] := row.(state := DEAD_LETTER, attempts := attempts)];
          deadLettered := deadLettered + 1;
        } else {
          local := local[ids[settled] := row.(state := PENDING, attempts := attempts,
            nextAttemptAt := now + BackoffSeconds(attempts))];
          retried := retried + 1;
        }
        BatchNext(outbox, limits, ids, answers, now, settled, before, local[ids[settled]], soFar);
        settled := settled + 1;
      }
      ends := DrainResult(settled, published, retried, deadLettered);
    }

    /** Drains the rows its claim query returned; an exception undoes the batch and is passed on as `None`. */
    method DrainOnce(r: RelayId, ids: seq<RowId>, now: int, answers: seq<Answer>) returns (result: Option<DrainResult>)
      requires r !in open && |answers| == |ids| && IsClaim(View(), ids, now, limits.batchSize)
      modifies this
      ensures View() == Drain(old(View()), limits, r, ids, now, answers)
      ensures result.None? ==> outbox == old(outbox)
      ensures result.None? <==> Settling(answers) < |ids|
      ensures result.Some? ==>
                (forall i :: 0 <= i < |ids| ==> ids[i] in old(outbox))
                && result.value == Ends(old(outbox), limits, ids, answers, |ids|)
                && result.value.claimed == |ids|
                && result.value.claimed == result.value.published + result.value.retried + result.value.deadLettered
      ensures result.Some? <==> forall i :: 0 <= i < |ids| ==> !answers[i].Threw?
      ensures result.Some? ==>
                BatchIsDone(old(outbox), outbox, limits, ids, answers, now, result.value)
    {
      hide DeliverAll, Deliver, Settled, Ends, Settling, BatchSoFar, BatchIsDone;
      ghost var begun := Begin(View(), limits, r, ids, now);
      var settled, local, ends := DeliverClaimed(r, ids, now, answers, begun);
      ghost var w := DeliverAll(begun, limits, r, answers[..settled]);
      if settled < |ids| {
        ghost var u := Rollback(w, r);
        lockedBy, open, accepted, undone, failures := u.lockedBy, u.open, u.accepted, u.undone, u.failures;
        return None;
      }
      ghost var v := Commit(w, r);
      outbox := outbox + local;
      BatchEnds(old(outbox), limits, ids, answers, now, local, ends);
      lockedBy, open, accepted, undone, failures := v.lockedBy, v.open, v.accepted, v.undone, v.failures;
      return Some(ends);
    }
  }
}
