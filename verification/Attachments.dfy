/**
 * Uploads on their way to a message: scan passes, expiry sweeps, binders and uploaders, all racing over one
 * table through conditional updates, with any of them free to crash between two awaits.
 *
 * Any number of passes may be under way on the same attachment; each is a small program counter between the
 * claim and the settling write. Object storage holds only keys here: what matters is which bytes exist.
 */
module Attachments {
  import opened Options
  import opened AttachmentPolicy

  type Id = string
  type PassId = nat
  type SweepId = nat
  type MessageId = string

  /** Keys are opaque and minted once per grant; promotion renames within the same object. */
  datatype Key = Quarantine(objectId: nat) | Clean(objectId: nat)

  /** What the grant fixed for good. */
  datatype Upload = Upload(conversationId: string, uploader: Uploader, claim: Claim, objectId: nat)

  datatype Row = Row(upload: Upload, state: State, cleanKey: Option<Key>, measured: Option<Claim>,
                     messageId: Option<MessageId>, expiresAt: Option<int>)

  datatype ScanAnswer = CannotRun | Infected | Rejected | FoundClean(measured: Claim)

  /** The storage's answer to a promotion; a copy whose original could not be removed still counts. */
  datatype PromoteAnswer = Unavailable | Renamed | CopiedOnly

  /** The write a pass has decided on. */
  datatype Decision = Retry | Condemn(infected: bool) | Accept(measured: Claim, key: Key)

  datatype Counter = Ready | Scanning | Recording(next: Decision) | Promoting(measured: Claim) | Writing(next: Decision) | Done

  /** What a pass has been through so far, in order. */
  datatype Fact =
    | Claimed | Saw(answer: ScanAnswer) | PassedPolicy | Promoted(key: Key) | Recorded | Wrote(to: State)

  datatype ScanPass = ScanPass(id: Id, upload: Upload, at: Counter, facts: seq<Fact>) {
    predicate Active() {
      !at.Ready? && !at.Done?
    }
  }

  datatype SweepAt = Marking | Deleting | Finished

  /** One row of an expiry sweep's batch: the state it was read in, and the keys read with it. */
  datatype Sweep = Sweep(id: Id, from: State, keys: seq<Key>, at: SweepAt)

  /** `past` is every state a row has been written to, oldest first. */
  datatype World = World(
    rows: map<Id, Row>, objects: set<Key>, passes: map<PassId, ScanPass>, sweeps: map<SweepId, Sweep>,
    past: map<Id, seq<State>>)

  const NO_UPLOADS := World(map[], {}, map[], map[], map[])

  // ---------------------------------------------------------------- the store's conditional updates

  function MoveRow(row: Row, to: State, decision: Decision): Row {
    match decision
    case Accept(measured, key) => row.(state := to, measured := Some(measured), cleanKey := Some(key))
    case _ => row.(state := to)
  }

  function Put(w: World, id: Id, row: Row): World
    requires id in w.past
  {
    w.(rows := w.rows[id := row], past := w.past[id := w.past[id] + [row.state]])
  }

  predicate Matches(w: World, id: Id, from: State) {
    id in w.rows && id in w.past && w.rows[id].state == from
  }

  // ---------------------------------------------------------------- the steps

  datatype Event =
    | Granted(id: Id, upload: Upload, expiresAt: int)
    | BytesArrive(id: Id)
    | Announced(id: Id)
    | PassStarts(p: PassId, id: Id)
    | Claims(p: PassId)
    | ScannerAnswers(p: PassId, answer: ScanAnswer)
    | StorageAnswers(p: PassId, promotion: PromoteAnswer)
    | Records(p: PassId)
    | Writes(p: PassId)
    | PassCrashes(p: PassId)
    | Binds(id: Id, messageId: MessageId, conversationId: string)
    | SweepReads(s: SweepId, id: Id, now: int)
    | SweepMarks(s: SweepId)
    | SweepDeletes(s: SweepId, deleted: bool)
    | SweepCrashes(s: SweepId)

  predicate ObjectUnused(w: World, objectId: nat) {
    forall id :: id in w.rows ==> w.rows[id].upload.objectId != objectId
  }

  function Grant(w: World, id: Id, upload: Upload, expiresAt: int): World {
    if id in w.rows || id in w.past || !ObjectUnused(w, upload.objectId) then w
    else w.(rows := w.rows[id := Row(upload, UPLOAD_GRANTED, None, None, None, Some(expiresAt))],
            past := w.past[id := [UPLOAD_GRANTED]])
  }

  function Arrive(w: World, id: Id): World {
    if id !in w.rows then w else w.(objects := w.objects + {Quarantine(w.rows[id].upload.objectId)})
  }

  function Announce(w: World, id: Id): World {
    if Matches(w, id, UPLOAD_GRANTED) then Put(w, id, w.rows[id].(state := QUARANTINED)) else w
  }

  /** A pass begins with a copy of the row it was given. */
  function Start(w: World, p: PassId, id: Id): World {
    if p in w.passes || id !in w.rows then w
    else w.(passes := w.passes[p := ScanPass(id, w.rows[id].upload, Ready, [])])
  }

  function TryClaim(w: World, p: PassId): World {
    if p !in w.passes || !w.passes[p].at.Ready? then w
    else
      var pass := w.passes[p];
      if Matches(w, pass.id, QUARANTINED) then
        Put(w, pass.id, w.rows[pass.id].(state := SCANNING)).(
          passes := w.passes[p := pass.(at := Scanning, facts := [Claimed])])
      else w.(passes := w.passes[p := pass.(at := Done)])
  }

  /** The scanner's answer, and for a clean file the policy's, which needs no waiting. */
  function Judge(policy: Policy, upload: Upload, answer: ScanAnswer): (Counter, seq<Fact>) {
    match answer
    case CannotRun => (Recording(Retry), [Saw(answer)])
    case Infected => (Recording(Condemn(true)), [Saw(answer)])
    case Rejected => (Recording(Condemn(false)), [Saw(answer)])
    case FoundClean(measured) =>
      if CheckReceived(policy, upload.uploader, upload.claim, measured).Pass?
      then (Promoting(measured), [Saw(answer), PassedPolicy])
      else (Recording(Condemn(false)), [Saw(answer)])
  }

  function Scan(w: World, policy: Policy, p: PassId, answer: ScanAnswer): World {
    if p !in w.passes || !w.passes[p].at.Scanning? then w
    else
      var pass := w.passes[p];
      var (at, facts) := Judge(policy, pass.upload, answer);
      w.(passes := w.passes[p := pass.(at := at, facts := pass.facts + facts)])
  }

  /** Promotion needs the quarantined bytes; a refusal is retried without a record. */
  function Promote(w: World, p: PassId, promotion: PromoteAnswer): World {
    if p !in w.passes || !w.passes[p].at.Promoting? then w
    else
      var pass := w.passes[p];
      var from, to := Quarantine(pass.upload.objectId), Clean(pass.upload.objectId);
      if promotion.Unavailable? || from !in w.objects then
        w.(passes := w.passes[p := pass.(at := Writing(Retry))])
      else
        w.(objects := (if promotion.Renamed? then w.objects - {from} else w.objects) + {to},
           passes := w.passes[p := pass.(at := Recording(Accept(pass.at.measured, to)), facts := pass.facts + [Promoted(to)])])
  }

  function Record(w: World, p: PassId): World {
    if p !in w.passes || !w.passes[p].at.Recording? then w
    else
      var pass := w.passes[p];
      w.(passes := w.passes[p := pass.(at := Writing(pass.at.next), facts := pass.facts + [Recorded])])
  }

  /** Where a decision takes a row that is still SCANNING. The retry is not in the table of moves. */
  function Target(decision: Decision): Option<State> {
    match decision
    case Retry => Some(QUARANTINED)
    case Accept(_, _) => Some(CLEAN)
    case Condemn(infected) =>
      match Advance(SCANNING, if infected then SCAN_INFECTED else SCAN_REJECTED)
      case Moved(_) => Some(if infected then INFECTED else REJECTED)
      case Refused(_) => None
  }

  function Write(w: World, p: PassId): World {
    if p !in w.passes || !w.passes[p].at.Writing? then w
    else
      var pass := w.passes[p];
      var target := Target(pass.at.next);
      if target.Some? && Matches(w, pass.id, SCANNING) then
        Put(w, pass.id, MoveRow(w.rows[pass.id], target.value, pass.at.next)).(
          passes := w.passes[p := pass.(at := Done, facts := pass.facts + [Wrote(target.value)])])
      else w.(passes := w.passes[p := pass.(at := Done)])
  }

  function CrashPass(w: World, p: PassId): World {
    if p !in w.passes then w else w.(passes := w.passes[p := w.passes[p].(at := Done)])
  }

  function Bind(w: World, id: Id, messageId: MessageId, conversationId: string): World {
    if Matches(w, id, CLEAN) && w.rows[id].upload.conversationId == conversationId
    then Put(w, id, w.rows[id].(state := BOUND, messageId := Some(messageId), expiresAt := None))
    else w
  }

  predicate Expirable(row: Row, now: int) {
    row.messageId.None? && IsExpirable(row.state) && row.expiresAt.Some? && row.expiresAt.value <= now
  }

  function Read(w: World, s: SweepId, id: Id, now: int): World {
    if s in w.sweeps || id !in w.rows || !Expirable(w.rows[id], now) then w
    else
      var row := w.rows[id];
      var clean := if row.cleanKey.Some? then [row.cleanKey.value] else [];
      w.(sweeps := w.sweeps[s := Sweep(id, row.state, [Quarantine(row.upload.objectId)] + clean, Marking)])
  }

  function Mark(w: World, s: SweepId): World {
    if s !in w.sweeps || !w.sweeps[s].at.Marking? then w
    else
      var sweep := w.sweeps[s];
      if Matches(w, sweep.id, sweep.from) then
        Put(w, sweep.id, w.rows[sweep.id].(state := EXPIRED)).(sweeps := w.sweeps[s := sweep.(at := Deleting)])
      else w.(sweeps := w.sweeps[s := sweep.(at := Finished)])
  }

  /** One key of the batch row; a deletion that fails is not tried again by this sweep. */
  function Delete(w: World, s: SweepId, deleted: bool): World {
    if s !in w.sweeps || !w.sweeps[s].at.Deleting? || w.sweeps[s].keys == [] then w
    else
      var sweep := w.sweeps[s];
      w.(objects := if deleted then w.objects - {sweep.keys[0]} else w.objects,
         sweeps := w.sweeps[s := sweep.(keys := sweep.keys[1..])])
  }

  function CrashSweep(w: World, s: SweepId): World {
    if s !in w.sweeps then w else w.(sweeps := w.sweeps[s := w.sweeps[s].(at := Finished)])
  }

  function Step(policy: Policy, w: World, e: Event): World {
    match e
    case Granted(id, upload, expiresAt) => Grant(w, id, upload, expiresAt)
    case BytesArrive(id) => Arrive(w, id)
    case Announced(id) => Announce(w, id)
    case PassStarts(p, id) => Start(w, p, id)
    case Claims(p) => TryClaim(w, p)
    case ScannerAnswers(p, answer) => Scan(w, policy, p, answer)
    case StorageAnswers(p, promotion) => Promote(w, p, promotion)
    case Records(p) => Record(w, p)
    case Writes(p) => Write(w, p)
    case PassCrashes(p) => CrashPass(w, p)
    case Binds(id, messageId, conversationId) => Bind(w, id, messageId, conversationId)
    case SweepReads(s, id, now) => Read(w, s, id, now)
    case SweepMarks(s) => Mark(w, s)
    case SweepDeletes(s, deleted) => Delete(w, s, deleted)
    case SweepCrashes(s) => CrashSweep(w, s)
  }

  function Run(policy: Policy, w: World, events: seq<Event>): World {
    if events == [] then w
    else Step(policy, Run(policy, w, events[..|events| - 1]), events[|events| - 1])
  }

  // ---------------------------------------------------------------- what every run keeps

  /** A write the table of moves lists, or the retry of a scan that could not finish. */
  ghost predicate Legal(from: State, to: State) {
    (from == SCANNING && to == QUARANTINED) || exists kind :: Moves(from, kind) == Some(to)
  }

  ghost predicate LegalPath(past: seq<State>) {
    && past != [] && past[0] == UPLOAD_GRANTED
    && forall k :: 0 < k < |past| ==> Legal(past[k - 1], past[k])
  }

  /** One pass claimed the row, saw a clean verdict, passed the policy, promoted the bytes, recorded and wrote CLEAN. */
  ghost predicate EarnedBy(policy: Policy, row: Row, pass: ScanPass) {
    && row.measured.Some? && row.cleanKey == Some(Clean(row.upload.objectId))
    && CheckReceived(policy, row.upload.uploader, row.upload.claim, row.measured.value).Pass?
    && pass.at.Done?
    && pass.facts == [Claimed, Saw(FoundClean(row.measured.value)), PassedPolicy,
                      Promoted(row.cleanKey.value), Recorded, Wrote(CLEAN)]
  }

  ghost predicate Earned(policy: Policy, row: Row, id: Id, passes: map<PassId, ScanPass>) {
    exists p :: p in passes && passes[p].id == id && EarnedBy(policy, row, passes[p])
  }

  ghost predicate RowSafe(policy: Policy, w: World, id: Id)
    requires id in w.rows
  {
    var row := w.rows[id];
    && id in w.past && LegalPath(w.past[id]) && w.past[id][|w.past[id]| - 1] == row.state
    && (row.state in {CLEAN, BOUND} ==>
          Clean(row.upload.objectId) in w.objects && Earned(policy, row, id, w.passes))
    && (row.state == BOUND <==> row.messageId.Some?)
    && (row.cleanKey.Some? ==> row.cleanKey == Some(Clean(row.upload.objectId)))
  }

  /** What a pass must have been through to stand where it stands, on the way to CLEAN. */
  ghost predicate OnTheWay(policy: Policy, pass: ScanPass) {
    var passed := (m: Claim) => [Claimed, Saw(FoundClean(m)), PassedPolicy];
    var permitted := (m: Claim) => CheckReceived(policy, pass.upload.uploader, pass.upload.claim, m).Pass?;
    match pass.at
    case Scanning => pass.facts == [Claimed]
    case Promoting(m) => permitted(m) && pass.facts == passed(m)
    case Recording(Accept(m, k)) =>
      permitted(m) && k == Clean(pass.upload.objectId) && pass.facts == passed(m) + [Promoted(k)]
    case Writing(Accept(m, k)) =>
      permitted(m) && k == Clean(pass.upload.objectId) && pass.facts == passed(m) + [Promoted(k), Recorded]
    case _ => true
  }

  predicate HasPromoted(at: Counter) {
    (at.Recording? || at.Writing?) && at.next.Accept?
  }

  ghost predicate PassSafe(policy: Policy, rows: map<Id, Row>, objects: set<Key>, pass: ScanPass) {
    && pass.id in rows && pass.upload == rows[pass.id].upload
    && (pass.Active() ==> rows[pass.id].state in {SCANNING, EXPIRED})
    && OnTheWay(policy, pass)
    && (HasPromoted(pass.at) && rows[pass.id].state == SCANNING ==> Clean(pass.upload.objectId) in objects)
  }

  ghost predicate SweepSafe(rows: map<Id, Row>, sweep: Sweep) {
    && sweep.id in rows && IsExpirable(sweep.from)
    && (forall k :: k in sweep.keys ==>
          k == Quarantine(rows[sweep.id].upload.objectId) || k == Clean(rows[sweep.id].upload.objectId))
    && (sweep.at.Deleting? ==> rows[sweep.id].state == EXPIRED)
  }

  ghost predicate RowsSafe(policy: Policy, w: World) {
    forall id :: id in w.rows ==> RowSafe(policy, w, id)
  }

  ghost predicate PassesSafe(policy: Policy, rows: map<Id, Row>, objects: set<Key>, passes: map<PassId, ScanPass>) {
    forall p :: p in passes ==> PassSafe(policy, rows, objects, passes[p])
  }

  ghost predicate SweepsSafe(rows: map<Id, Row>, sweeps: map<SweepId, Sweep>) {
    forall s :: s in sweeps ==> SweepSafe(rows, sweeps[s])
  }

  /** At most one pass per attachment stands between its claim and its settling write. */
  ghost predicate OneAtATime(passes: map<PassId, ScanPass>) {
    forall p, q ::
      (p in passes && q in passes && passes[p].Active() && passes[q].Active() && passes[p].id == passes[q].id)
      ==> p == q
  }

  ghost predicate OwnObjects(rows: map<Id, Row>) {
    forall a, b :: a in rows && b in rows && rows[a].upload.objectId == rows[b].upload.objectId ==> a == b
  }

  ghost predicate Safe(policy: Policy, w: World) {
    && RowsSafe(policy, w) && PassesSafe(policy, w.rows, w.objects, w.passes) && SweepsSafe(w.rows, w.sweeps)
    && OneAtATime(w.passes) && OwnObjects(w.rows)
  }

  /** No other pass is at work on the same attachment. */
  ghost predicate Alone(w: World, p: PassId, id: Id) {
    forall q :: q in w.passes && q != p && w.passes[q].id == id ==> !w.passes[q].Active()
  }

  lemma PassMoves(policy: Policy, w: World, p: PassId, next: ScanPass)
    requires Safe(policy, w)
    requires p in w.passes ==> !w.passes[p].at.Done?
    requires PassSafe(policy, w.rows, w.objects, next)
    requires next.Active() ==> Alone(w, p, next.id)
    ensures Safe(policy, w.(passes := w.passes[p := next]))
  {
    hide LegalPath, EarnedBy, OnTheWay, SweepSafe;
    var v := w.(passes := w.passes[p := next]);
    forall id | id in v.rows
      ensures RowSafe(policy, v, id)
    {
      assert RowSafe(policy, w, id);
      if v.rows[id].state in {CLEAN, BOUND} {
        var q :| q in w.passes && w.passes[q].id == id && EarnedBy(policy, w.rows[id], w.passes[q]);
        EarnedMeansDone(policy, w.rows[id], w.passes[q]);
        assert v.passes[q] == w.passes[q];
      }
    }
  }

  lemma EarnedMeansDone(policy: Policy, row: Row, pass: ScanPass)
    requires EarnedBy(policy, row, pass)
    ensures pass.at.Done?
  {
  }

  /** A row may be written when no pass depends on the state it leaves. */
  ghost predicate MayMove(policy: Policy, w: World, id: Id, row: Row) {
    && id in w.rows && id in w.past && row.upload == w.rows[id].upload && Legal(w.rows[id].state, row.state)
    && (row.state in {SCANNING, EXPIRED} || forall q :: q in w.passes && w.passes[q].id == id ==> !w.passes[q].Active())
    && (row.state in {CLEAN, BOUND} ==>
          Clean(row.upload.objectId) in w.objects && Earned(policy, row, id, w.passes))
    && (row.state == BOUND <==> row.messageId.Some?)
    && (row.cleanKey.Some? ==> row.cleanKey == Some(Clean(row.upload.objectId)))
  }

  lemma RowMovesForRows(policy: Policy, w: World, id: Id, row: Row)
    requires Safe(policy, w) && MayMove(policy, w, id, row)
    ensures RowsSafe(policy, Put(w, id, row))
  {
    hide EarnedBy, PassSafe, SweepSafe, Legal;
    var v := Put(w, id, row);
    forall other | other in v.rows
      ensures RowSafe(policy, v, other)
    {
      assert RowSafe(policy, w, other);
    }
  }

  lemma RowMovesForPasses(policy: Policy, w: World, id: Id, row: Row)
    requires Safe(policy, w) && MayMove(policy, w, id, row)
    ensures PassesSafe(policy, Put(w, id, row).rows, w.objects, w.passes) && SweepsSafe(Put(w, id, row).rows, w.sweeps)
  {
    hide EarnedBy, OnTheWay, Legal, RowSafe, LegalPath;
    var v := Put(w, id, row);
    MovesFromHere(w.rows[id].state, row.state);
    forall p | p in v.passes
      ensures PassSafe(policy, v.rows, v.objects, v.passes[p])
    {
      assert PassSafe(policy, w.rows, w.objects, w.passes[p]);
    }
    forall s | s in v.sweeps
      ensures SweepSafe(v.rows, v.sweeps[s])
    {
      assert SweepSafe(w.rows, w.sweeps[s]);
    }
  }

  lemma RowMoves(policy: Policy, w: World, id: Id, row: Row)
    requires Safe(policy, w) && MayMove(policy, w, id, row)
    ensures Safe(policy, Put(w, id, row))
  {
    hide MayMove, RowsSafe, PassesSafe, SweepsSafe;
    RowMovesForRows(policy, w, id, row);
    RowMovesForPasses(policy, w, id, row);
    assert id in w.rows && row.upload == w.rows[id].upload by { UploadKept(policy, w, id, row); }
  }

  lemma MovesFromHere(from: State, to: State)
    requires Legal(from, to)
    ensures from != EXPIRED && from != BOUND
    ensures to == SCANNING ==> from == QUARANTINED
  {
  }

  lemma UploadKept(policy: Policy, w: World, id: Id, row: Row)
    requires MayMove(policy, w, id, row)
    ensures id in w.rows && row.upload == w.rows[id].upload
  {
  }

  /** Bytes may appear, and bytes no accepted row or promoted pass relies on may go. */
  lemma ObjectsChange(policy: Policy, w: World, objects: set<Key>)
    requires Safe(policy, w)
    requires forall id :: (id in w.rows && w.rows[id].state in {SCANNING, CLEAN, BOUND}) ==>
                            (Clean(w.rows[id].upload.objectId) in w.objects ==> Clean(w.rows[id].upload.objectId) in objects)
    ensures Safe(policy, w.(objects := objects))
  {
    hide LegalPath, EarnedBy, OnTheWay, OneAtATime, OwnObjects, SweepsSafe;
    var v := w.(objects := objects);
    forall id | id in v.rows
      ensures RowSafe(policy, v, id)
    {
      assert RowSafe(policy, w, id);
    }
    forall p | p in v.passes
      ensures PassSafe(policy, v.rows, v.objects, v.passes[p])
    {
      assert PassSafe(policy, w.rows, w.objects, w.passes[p]);
    }
  }

  lemma StartKeeps(policy: Policy, w: World, p: PassId, id: Id)
    requires Safe(policy, w)
    ensures Safe(policy, Start(w, p, id))
  {
    hide RowSafe, SweepSafe, EarnedBy;
    if p !in w.passes && id in w.rows {
      PassMoves(policy, w, p, ScanPass(id, w.rows[id].upload, Ready, []));
    }
  }

  lemma CrashKeeps(policy: Policy, w: World, p: PassId)
    requires Safe(policy, w)
    ensures Safe(policy, CrashPass(w, p))
  {
    hide RowSafe, SweepSafe, EarnedBy;
    if p in w.passes {
      assert PassSafe(policy, w.rows, w.objects, w.passes[p]);
      if w.passes[p].at.Done? {
        assert w.passes[p := w.passes[p]] == w.passes;
      } else {
        PassMoves(policy, w, p, w.passes[p].(at := Done));
      }
    }
  }

  lemma RecordKeeps(policy: Policy, w: World, p: PassId)
    requires Safe(policy, w)
    ensures Safe(policy, Record(w, p))
  {
    hide CheckReceived, RowSafe, SweepSafe, EarnedBy;
    if p in w.passes && w.passes[p].at.Recording? {
      assert PassSafe(policy, w.rows, w.objects, w.passes[p]);
      PassMoves(policy, w, p, Record(w, p).passes[p]);
    }
  }

  lemma ScanKeeps(policy: Policy, w: World, p: PassId, answer: ScanAnswer)
    requires Safe(policy, w)
    ensures Safe(policy, Scan(w, policy, p, answer))
  {
    hide CheckReceived, RowSafe, SweepSafe, EarnedBy;
    if p in w.passes && w.passes[p].at.Scanning? {
      assert PassSafe(policy, w.rows, w.objects, w.passes[p]);
      PassMoves(policy, w, p, Scan(w, policy, p, answer).passes[p]);
    }
  }

  lemma ClaimKeeps(policy: Policy, w: World, p: PassId)
    requires Safe(policy, w)
    ensures Safe(policy, TryClaim(w, p))
  {
    hide RowSafe, SweepSafe, EarnedBy;
    if p in w.passes && w.passes[p].at.Ready? {
      var pass := w.passes[p];
      assert PassSafe(policy, w.rows, w.objects, pass);
      if Matches(w, pass.id, QUARANTINED) {
        ClaimRow(policy, w, pass.id);
        var v := Put(w, pass.id, w.rows[pass.id].(state := SCANNING));
        RowMoves(policy, w, pass.id, w.rows[pass.id].(state := SCANNING));
        forall q | q in v.passes && q != p && v.passes[q].id == pass.id
          ensures !v.passes[q].Active()
        {
          assert PassSafe(policy, w.rows, w.objects, w.passes[q]);
        }
        PassMoves(policy, v, p, pass.(at := Scanning, facts := [Claimed]));
      } else {
        PassMoves(policy, w, p, pass.(at := Done));
      }
    }
  }

  lemma ClaimRow(policy: Policy, w: World, id: Id)
    requires Safe(policy, w) && Matches(w, id, QUARANTINED)
    ensures MayMove(policy, w, id, w.rows[id].(state := SCANNING))
  {
    assert RowSafe(policy, w, id);
    assert Moves(QUARANTINED, SCAN_STARTED) == Some(SCANNING);
  }

  /** A pass that has decided: the write it is about to make is one the row may take once the pass is done. */
  lemma WriteKeeps(policy: Policy, w: World, p: PassId)
    requires Safe(policy, w)
    ensures Safe(policy, Write(w, p))
  {
    hide RowSafe, SweepSafe, EarnedBy, MayMove;
    if p in w.passes && w.passes[p].at.Writing? {
      var pass := w.passes[p];
      assert PassSafe(policy, w.rows, w.objects, pass);
      var target := Target(pass.at.next);
      if target.Some? && Matches(w, pass.id, SCANNING) {
        var done := pass.(at := Done, facts := pass.facts + [Wrote(target.value)]);
        PassMoves(policy, w, p, done);
        var v := w.(passes := w.passes[p := done]);
        WrittenRow(policy, w, p, v);
        RowMoves(policy, v, pass.id, MoveRow(w.rows[pass.id], target.value, pass.at.next));
        assert Write(w, p) == Put(v, pass.id, MoveRow(w.rows[pass.id], target.value, pass.at.next));
      } else {
        PassMoves(policy, w, p, pass.(at := Done));
      }
    }
  }

  lemma ActiveIsAlone(policy: Policy, w: World, p: PassId)
    requires Safe(policy, w) && p in w.passes && w.passes[p].Active()
    ensures Alone(w, p, w.passes[p].id)
  {
    hide RowsSafe, PassesSafe, SweepsSafe, OwnObjects;
  }

  lemma TargetsAreLegal(decision: Decision)
    requires Target(decision).Some?
    ensures Legal(SCANNING, Target(decision).value) && Target(decision).value !in {BOUND, SCANNING, EXPIRED}
    ensures Target(decision).value == CLEAN <==> decision.Accept?
  {
    assert Moves(SCANNING, SCAN_CLEAN) == Some(CLEAN) && Moves(SCANNING, SCAN_INFECTED) == Some(INFECTED)
           && Moves(SCANNING, SCAN_REJECTED) == Some(REJECTED);
  }

  lemma AcceptedIsEarned(policy: Policy, row: Row, pass: ScanPass)
    requires pass.at.Writing? && pass.at.next.Accept? && OnTheWay(policy, pass) && pass.upload == row.upload
    ensures EarnedBy(policy, MoveRow(row, CLEAN, pass.at.next), pass.(at := Done, facts := pass.facts + [Wrote(CLEAN)]))
  {
  }

  lemma WrittenRow(policy: Policy, w: World, p: PassId, v: World)
    requires Safe(policy, w) && p in w.passes && w.passes[p].at.Writing?
    requires Target(w.passes[p].at.next).Some? && Matches(w, w.passes[p].id, SCANNING)
    requires var pass := w.passes[p];
             v == w.(passes := w.passes[p := pass.(at := Done,
                                                   facts := pass.facts + [Wrote(Target(pass.at.next).value)])])
    ensures var pass := w.passes[p];
            MayMove(policy, v, pass.id, MoveRow(w.rows[pass.id], Target(pass.at.next).value, pass.at.next))
  {
    var pass, to := w.passes[p], Target(w.passes[p].at.next).value;
    hide LegalPath, SweepsSafe, OwnObjects, OneAtATime, Target, Legal, EarnedBy;
    assert PassSafe(policy, w.rows, w.objects, pass) && RowSafe(policy, w, pass.id);
    ActiveIsAlone(policy, w, p);
    TargetsAreLegal(pass.at.next);
    if to == CLEAN {
      AcceptedIsEarned(policy, w.rows[pass.id], pass);
      assert EarnedBy(policy, MoveRow(w.rows[pass.id], to, pass.at.next), v.passes[p]);
    }
  }

  lemma PromoteKeeps(policy: Policy, w: World, p: PassId, promotion: PromoteAnswer)
    requires Safe(policy, w)
    ensures Safe(policy, Promote(w, p, promotion))
  {
    hide CheckReceived, RowSafe, SweepSafe, EarnedBy;
    if p in w.passes && w.passes[p].at.Promoting? {
      var pass, v := w.passes[p], Promote(w, p, promotion);
      assert PassSafe(policy, w.rows, w.objects, pass);
      ObjectsChange(policy, w, v.objects);
      PassMoves(policy, w.(objects := v.objects), p, v.passes[p]);
    }
  }

  lemma SweepChanges(policy: Policy, w: World, s: SweepId, sweep: Sweep)
    requires Safe(policy, w) && SweepSafe(w.rows, sweep)
    ensures Safe(policy, w.(sweeps := w.sweeps[s := sweep]))
  {
    hide EarnedBy, LegalPath, PassesSafe, OneAtATime, OwnObjects;
    var v := w.(sweeps := w.sweeps[s := sweep]);
    forall id | id in v.rows
      ensures RowSafe(policy, v, id)
    {
      assert RowSafe(policy, w, id);
    }
  }

  lemma SweepStepKeeps(policy: Policy, w: World, e: Event)
    requires Safe(policy, w) && (e.SweepReads? || e.SweepCrashes?)
    ensures Safe(policy, Step(policy, w, e))
  {
    hide PassSafe, EarnedBy, LegalPath, OnTheWay;
    var v := Step(policy, w, e);
    if e.SweepReads? {
      if e.s !in w.sweeps && e.id in w.rows && Expirable(w.rows[e.id], e.now) {
        assert RowSafe(policy, w, e.id);
        SweepChanges(policy, w, e.s, v.sweeps[e.s]);
      }
    } else if e.s in w.sweeps {
      assert SweepSafe(w.rows, w.sweeps[e.s]);
      SweepChanges(policy, w, e.s, v.sweeps[e.s]);
    }
  }

  lemma DeleteKeeps(policy: Policy, w: World, s: SweepId, deleted: bool)
    requires Safe(policy, w)
    ensures Safe(policy, Delete(w, s, deleted))
  {
    hide RowsSafe, PassesSafe, PassSafe, OneAtATime;
    if s in w.sweeps && w.sweeps[s].at.Deleting? && w.sweeps[s].keys != [] {
      var sweep, v := w.sweeps[s], Delete(w, s, deleted);
      assert SweepSafe(w.rows, sweep);
      assert forall k :: k in sweep.keys[1..] ==> k in sweep.keys;
      SweepChanges(policy, w, s, v.sweeps[s]);
      assert sweep.keys[0] in sweep.keys;
      ObjectsChange(policy, w.(sweeps := v.sweeps), v.objects);
    }
  }

  lemma MarkKeeps(policy: Policy, w: World, s: SweepId)
    requires Safe(policy, w)
    ensures Safe(policy, Mark(w, s))
  {
    hide PassSafe, EarnedBy, LegalPath, OnTheWay;
    if s in w.sweeps && w.sweeps[s].at.Marking? {
      var sweep := w.sweeps[s];
      assert SweepSafe(w.rows, sweep) && RowSafe(policy, w, sweep.id);
      if Matches(w, sweep.id, sweep.from) {
        var row := w.rows[sweep.id].(state := EXPIRED);
        assert Moves(w.rows[sweep.id].state, EXPIRE) == Some(EXPIRED);
        assert MayMove(policy, w, sweep.id, row);
        RowMoves(policy, w, sweep.id, row);
        SweepChanges(policy, Put(w, sweep.id, row), s, sweep.(at := Deleting));
      } else {
        SweepChanges(policy, w, s, sweep.(at := Finished));
      }
    }
  }

  lemma StoreStepKeeps(policy: Policy, w: World, e: Event)
    requires Safe(policy, w) && (e.BytesArrive? || e.Announced? || e.Binds?)
    ensures Safe(policy, Step(policy, w, e))
  {
    hide EarnedBy, LegalPath, OnTheWay;
    if e.BytesArrive? {
      ObjectsChange(policy, w, Step(policy, w, e).objects);
    } else if e.id in w.rows && e.id in w.past {
      assert RowSafe(policy, w, e.id);
      forall q | q in w.passes && w.passes[q].id == e.id && w.rows[e.id].state !in {SCANNING, EXPIRED}
        ensures !w.passes[q].Active()
      {
        assert PassSafe(policy, w.rows, w.objects, w.passes[q]);
      }
      if e.Announced? && w.rows[e.id].state == UPLOAD_GRANTED {
        assert Moves(UPLOAD_GRANTED, UPLOADED) == Some(QUARANTINED);
        RowMoves(policy, w, e.id, w.rows[e.id].(state := QUARANTINED));
      } else if e.Binds? && w.rows[e.id].state == CLEAN && w.rows[e.id].upload.conversationId == e.conversationId {
        BoundRow(policy, w, e.id, e.messageId);
        RowMoves(policy, w, e.id, w.rows[e.id].(state := BOUND, messageId := Some(e.messageId), expiresAt := None));
      }
    }
  }

  lemma BoundRow(policy: Policy, w: World, id: Id, messageId: MessageId)
    requires id in w.rows && id in w.past && RowSafe(policy, w, id) && w.rows[id].state == CLEAN
    requires forall q :: q in w.passes && w.passes[q].id == id ==> !w.passes[q].Active()
    ensures MayMove(policy, w, id, w.rows[id].(state := BOUND, messageId := Some(messageId), expiresAt := None))
  {
    var row := w.rows[id].(state := BOUND, messageId := Some(messageId), expiresAt := None);
    assert Moves(CLEAN, BIND) == Some(BOUND);
    var p :| p in w.passes && w.passes[p].id == id && EarnedBy(policy, w.rows[id], w.passes[p]);
    assert EarnedBy(policy, row, w.passes[p]);
  }

  lemma GrantForRows(policy: Policy, w: World, id: Id, upload: Upload, expiresAt: int)
    requires Safe(policy, w) && id !in w.rows && id !in w.past && ObjectUnused(w, upload.objectId)
    ensures RowsSafe(policy, Grant(w, id, upload, expiresAt)) && OwnObjects(Grant(w, id, upload, expiresAt).rows)
  {
    hide EarnedBy, Legal, PassesSafe, SweepsSafe, OneAtATime;
    var v := Grant(w, id, upload, expiresAt);
    forall other | other in v.rows
      ensures RowSafe(policy, v, other)
    {
      if other != id {
        assert RowSafe(policy, w, other);
      }
    }
  }

  lemma GrantKeeps(policy: Policy, w: World, id: Id, upload: Upload, expiresAt: int)
    requires Safe(policy, w)
    ensures Safe(policy, Grant(w, id, upload, expiresAt))
  {
    hide RowsSafe, OnTheWay, OneAtATime, OwnObjects;
    if id !in w.rows && id !in w.past && ObjectUnused(w, upload.objectId) {
      GrantForRows(policy, w, id, upload, expiresAt);
      var v := Grant(w, id, upload, expiresAt);
      forall p | p in v.passes
        ensures PassSafe(policy, v.rows, v.objects, v.passes[p])
      {
        assert PassSafe(policy, w.rows, w.objects, w.passes[p]);
      }
      forall s | s in v.sweeps
        ensures SweepSafe(v.rows, v.sweeps[s])
      {
        assert SweepSafe(w.rows, w.sweeps[s]);
      }
    }
  }

  lemma StepKeeps(policy: Policy, w: World, e: Event)
    requires Safe(policy, w)
    ensures Safe(policy, Step(policy, w, e))
  {
    hide Safe, Grant, TryClaim, Write, Promote, Mark, Scan, Record, Read, Delete, Bind, Announce, Arrive, Start,
         CrashPass, CrashSweep;
    match e
    case Granted(id, upload, expiresAt) => GrantKeeps(policy, w, id, upload, expiresAt);
    case Claims(p) => ClaimKeeps(policy, w, p);
    case Writes(p) => WriteKeeps(policy, w, p);
    case StorageAnswers(p, promotion) => PromoteKeeps(policy, w, p, promotion);
    case SweepMarks(s) => MarkKeeps(policy, w, s);
    case PassStarts(p, id) => StartKeeps(policy, w, p, id);
    case ScannerAnswers(p, answer) => ScanKeeps(policy, w, p, answer);
    case Records(p) => RecordKeeps(policy, w, p);
    case PassCrashes(p) => CrashKeeps(policy, w, p);
    case SweepReads(_, _, _) => SweepStepKeeps(policy, w, e);
    case SweepDeletes(s, deleted) => DeleteKeeps(policy, w, s, deleted);
    case SweepCrashes(_) => SweepStepKeeps(policy, w, e);
    case BytesArrive(_) => StoreStepKeeps(policy, w, e);
    case Announced(_) => StoreStepKeeps(policy, w, e);
    case Binds(_, _, _) => StoreStepKeeps(policy, w, e);
  }

  lemma {:induction false} EveryRunIsSafe(policy: Policy, events: seq<Event>)
    ensures Safe(policy, Run(policy, NO_UPLOADS, events))
  {
    if events != [] {
      EveryRunIsSafe(policy, events[..|events| - 1]);
      StepKeeps(policy, Run(policy, NO_UPLOADS, events[..|events| - 1]), events[|events| - 1]);
    }
  }

  lemma {:induction false} SafeOnwards(policy: Policy, w: World, events: seq<Event>)
    requires Safe(policy, w)
    ensures Safe(policy, Run(policy, w, events))
  {
    if events != [] {
      SafeOnwards(policy, w, events[..|events| - 1]);
      StepKeeps(policy, Run(policy, w, events[..|events| - 1]), events[|events| - 1]);
    }
  }

  // ---------------------------------------------------------------- what that means

  /** Never two scanners on one attachment: the passes between claim and settling write are on distinct rows. */
  lemma OneScannerPerAttachment(policy: Policy, events: seq<Event>, p: PassId, q: PassId)
    ensures var w := Run(policy, NO_UPLOADS, events);
            (p in w.passes && q in w.passes && w.passes[p].Active() && w.passes[q].Active() && w.passes[p].id == w.passes[q].id)
            ==> p == q
  {
    EveryRunIsSafe(policy, events);
  }

  /**
   * Nothing is clean, and so nothing is ever bound, unless one single pass claimed it, saw a clean verdict,
   * found the measured bytes within policy, promoted them, recorded the verdict and wrote it, in that order.
   */
  lemma CleanIsEarned(policy: Policy, events: seq<Event>, id: Id)
    ensures var w := Run(policy, NO_UPLOADS, events);
            (id in w.rows && w.rows[id].state in {CLEAN, BOUND})
            ==> exists p :: (p in w.passes && w.passes[p].id == id && EarnedBy(policy, w.rows[id], w.passes[p]))
  {
    EveryRunIsSafe(policy, events);
    var w := Run(policy, NO_UPLOADS, events);
    if id in w.rows {
      assert RowSafe(policy, w, id);
    }
  }

  /** Every state ever written follows the one before it by a move of the table, or by the scan's retry. */
  lemma EveryWriteIsAMove(policy: Policy, events: seq<Event>, id: Id, k: nat)
    ensures var w := Run(policy, NO_UPLOADS, events);
            id in w.rows ==>
              id in w.past && w.past[id] != [] && w.past[id][0] == UPLOAD_GRANTED
              && w.past[id][|w.past[id]| - 1] == w.rows[id].state
              && (0 < k < |w.past[id]| ==> Legal(w.past[id][k - 1], w.past[id][k]))
  {
    EveryRunIsSafe(policy, events);
    var w := Run(policy, NO_UPLOADS, events);
    if id in w.rows {
      assert RowSafe(policy, w, id);
    }
  }

  /** Terminal states are terminal: no step changes anything about such a row. */
  lemma SettledStays(policy: Policy, w: World, e: Event, id: Id)
    requires Safe(policy, w) && id in w.rows && !IsExpirable(w.rows[id].state)
    ensures id in Step(policy, w, e).rows && Step(policy, w, e).rows[id] == w.rows[id]
  {
    hide RowSafe, OnTheWay;
    if e.SweepMarks? && e.s in w.sweeps {
      assert SweepSafe(w.rows, w.sweeps[e.s]);
    }
  }

  /** A bound attachment stays bound to its message, and its bytes are never deleted, whatever follows. */
  lemma BoundForever(policy: Policy, events: seq<Event>, more: seq<Event>, id: Id)
    requires id in Run(policy, NO_UPLOADS, events).rows && Run(policy, NO_UPLOADS, events).rows[id].state == BOUND
    ensures var v := Run(policy, Run(policy, NO_UPLOADS, events), more);
            id in v.rows && v.rows[id] == Run(policy, NO_UPLOADS, events).rows[id]
            && v.rows[id].cleanKey.Some? && v.rows[id].cleanKey.value in v.objects
  {
    var w := Run(policy, NO_UPLOADS, events);
    EveryRunIsSafe(policy, events);
    SafeOnwards(policy, w, more);
    StaysBound(policy, w, more, id);
    var v := Run(policy, w, more);
    assert RowSafe(policy, v, id);
    var p :| p in v.passes && v.passes[p].id == id && EarnedBy(policy, v.rows[id], v.passes[p]);
  }

  lemma {:induction false} StaysBound(policy: Policy, w: World, more: seq<Event>, id: Id)
    requires Safe(policy, w) && id in w.rows && w.rows[id].state == BOUND
    ensures id in Run(policy, w, more).rows && Run(policy, w, more).rows[id] == w.rows[id]
  {
    hide Safe, Step;
    if more != [] {
      StaysBound(policy, w, more[..|more| - 1], id);
      SafeOnwards(policy, w, more[..|more| - 1]);
      SettledStays(policy, Run(policy, w, more[..|more| - 1]), more[|more| - 1], id);
    }
  }

  // ---------------------------------------------------------------- short runs

  lemma RunMore(policy: Policy, w: World, events: seq<Event>, e: Event)
    ensures Run(policy, w, events + [e]) == Step(policy, Run(policy, w, events), e)
  {
    hide Step;
    assert (events + [e])[..|events|] == events;
  }

  lemma RunThree(policy: Policy, w: World, events: seq<Event>, a: Event, b: Event, c: Event)
    ensures Run(policy, w, events + [a, b, c])
         == Step(policy, Step(policy, Step(policy, Run(policy, w, events), a), b), c)
  {
    hide Step, Run;
    RunMore(policy, w, events, a);
    RunMore(policy, w, events + [a], b);
    RunMore(policy, w, events + [a] + [b], c);
    assert events + [a] + [b] + [c] == events + [a, b, c];
  }

  lemma SixSteps(policy: Policy, w: World, events: seq<Event>, first: seq<Event>, last: seq<Event>)
    requires |first| == 3 && |last| == 3
    ensures var v := Step(policy, Step(policy, Step(policy, Run(policy, w, events), first[0]), first[1]), first[2]);
            Run(policy, w, events + first + last) == Step(policy, Step(policy, Step(policy, v, last[0]), last[1]), last[2])
  {
    hide Run, Step;
    assert first == [first[0], first[1], first[2]] && last == [last[0], last[1], last[2]];
    RunThree(policy, w, events, first[0], first[1], first[2]);
    RunThree(policy, w, events + first, last[0], last[1], last[2]);
  }

  lemma NoEvents(policy: Policy, w: World)
    ensures Run(policy, w, []) == w
  {
  }

  // ---------------------------------------------------------------- the workers' code

  /** One pass from start to finish with nothing in between. */
  function WholePass(policy: Policy, w: World, p: PassId, id: Id, answer: ScanAnswer, promotion: PromoteAnswer): World {
    var judged := Scan(TryClaim(Start(w, p, id), p), policy, p, answer);
    Write(Record(Promote(judged, p, promotion), p), p)
  }

  lemma WholePassIsARun(policy: Policy, w: World, p: PassId, id: Id, answer: ScanAnswer, promotion: PromoteAnswer)
    ensures WholePass(policy, w, p, id, answer, promotion)
         == Run(policy, w, [PassStarts(p, id), Claims(p), ScannerAnswers(p, answer)]
                           + [StorageAnswers(p, promotion), Records(p), Writes(p)])
  {
    hide Run, Start, TryClaim, Scan, Promote, Record, Write;
    var none: seq<Event> := [];
    NoEvents(policy, w);
    var first := [PassStarts(p, id), Claims(p), ScannerAnswers(p, answer)];
    assert none + first == first;
    SixSteps(policy, w, none, first, [StorageAnswers(p, promotion), Records(p), Writes(p)]);
  }

  /** The write a claimed pass ends with when nothing comes in between. */
  function Verdict(policy: Policy, upload: Upload, objects: set<Key>, answer: ScanAnswer, promotion: PromoteAnswer): Decision {
    match answer
    case CannotRun => Retry
    case Infected => Condemn(true)
    case Rejected => Condemn(false)
    case FoundClean(measured) =>
      if CheckReceived(policy, upload.uploader, upload.claim, measured).Refuse? then Condemn(false)
      else if promotion.Unavailable? || Quarantine(upload.objectId) !in objects then Retry
      else Accept(measured, Clean(upload.objectId))
  }

  function ObjectsAfter(upload: Upload, objects: set<Key>, verdict: Decision, promotion: PromoteAnswer): set<Key> {
    if !verdict.Accept? then objects
    else (if promotion.Renamed? then objects - {Quarantine(upload.objectId)} else objects) + {Clean(upload.objectId)}
  }

  /** What a claimed upload comes to, and its bytes with it, for each answer of the scanner and of the storage. */
  ghost predicate EndsAs(policy: Policy, was: Row, before: set<Key>, answer: ScanAnswer, promotion: PromoteAnswer,
                         row: Row, after: set<Key>) {
    var from, to := Quarantine(was.upload.objectId), Clean(was.upload.objectId);
    match answer
    case CannotRun => row == was.(state := QUARANTINED) && after == before
    case Infected => row == was.(state := INFECTED) && after == before
    case Rejected => row == was.(state := REJECTED) && after == before
    case FoundClean(measured) =>
      if CheckReceived(policy, was.upload.uploader, was.upload.claim, measured).Refuse?
      then row == was.(state := REJECTED) && after == before
      else if promotion.Unavailable? || from !in before then row == was.(state := QUARANTINED) && after == before
      else
        && row == was.(state := CLEAN, measured := Some(measured), cleanKey := Some(to))
        && to in after && after - {from, to} == before - {from, to} && (from in after <==> promotion.CopiedOnly?)
  }

  lemma Claiming(policy: Policy, w: World, p: PassId, id: Id, answer: ScanAnswer)
    requires p !in w.passes && id in w.rows && id in w.past
    ensures var v := Scan(TryClaim(Start(w, p, id), p), policy, p, answer);
            var claimed := Put(w, id, w.rows[id].(state := SCANNING));
            && p in v.passes && v.passes[p].id == id && v.passes[p].upload == w.rows[id].upload
            && v.objects == w.objects && v.sweeps == w.sweeps
            && (w.rows[id].state == QUARANTINED ==>
                  v.passes[p].at == Judge(policy, w.rows[id].upload, answer).0
                  && v.rows == claimed.rows && v.past == claimed.past)
            && (w.rows[id].state != QUARANTINED ==> v.passes[p].at == Done && v.rows == w.rows && v.past == w.past)
  {
    hide CheckReceived, Judge;
  }

  lemma Idle(w: World, p: PassId, promotion: PromoteAnswer)
    requires p in w.passes && w.passes[p].at.Done?
    ensures Write(Record(Promote(w, p, promotion), p), p) == w
  {
  }

  /** Promotion and record leave the pass with its verdict to write. */
  lemma Deciding(policy: Policy, w: World, p: PassId, answer: ScanAnswer, promotion: PromoteAnswer)
    requires p in w.passes && w.passes[p].at == Judge(policy, w.passes[p].upload, answer).0
    ensures var v := Record(Promote(w, p, promotion), p);
            var pass := w.passes[p];
            var verdict := Verdict(policy, pass.upload, w.objects, answer, promotion);
            && p in v.passes && v.passes[p].id == pass.id && v.passes[p].at == Writing(verdict)
            && v.rows == w.rows && v.past == w.past && v.sweeps == w.sweeps
            && v.objects == ObjectsAfter(pass.upload, w.objects, verdict, promotion)
  {
    hide CheckReceived;
  }

  lemma MovesKeepUploads(row: Row, decision: Decision)
    ensures Target(decision).Some? && MoveRow(row, Target(decision).value, decision).upload == row.upload
  {
  }

  lemma Settling(w: World, p: PassId, verdict: Decision)
    requires p in w.passes && w.passes[p].at == Writing(verdict) && Matches(w, w.passes[p].id, SCANNING)
    ensures var id := w.passes[p].id;
            Target(verdict).Some?
            && Write(w, p) == Put(w, id, MoveRow(w.rows[id], Target(verdict).value, verdict)).(passes := Write(w, p).passes)
  {
  }

  /** The sweep deletes what it read, key by key, whatever storage answers. */
  function DeleteAll(w: World, s: SweepId, deleted: Key -> bool): World
    requires s in w.sweeps
    decreases |w.sweeps[s].keys|
  {
    if !w.sweeps[s].at.Deleting? || w.sweeps[s].keys == [] then w
    else DeleteAll(Delete(w, s, deleted(w.sweeps[s].keys[0])), s, deleted)
  }

  function ExpireOne(w: World, s: SweepId, deleted: Key -> bool): World {
    if s !in w.sweeps then w else DeleteAll(Mark(w, s), s, deleted)
  }

  /** A whole batch, and how many of its uploads expired. */
  function ExpireAll(w: World, batch: seq<SweepId>, deleted: Key -> bool): (World, nat) {
    if batch == [] then (w, 0)
    else
      var s, before := batch[|batch| - 1], ExpireAll(w, batch[..|batch| - 1], deleted);
      var won := s in before.0.sweeps && before.0.sweeps[s].at.Marking?
                 && Matches(before.0, before.0.sweeps[s].id, before.0.sweeps[s].from);
      (ExpireOne(before.0, s, deleted), before.1 + if won then 1 else 0)
  }

  lemma {:induction false} DeletingAll(w: World, s: SweepId, deleted: Key -> bool)
    requires s in w.sweeps && w.sweeps[s].at.Deleting?
    ensures var v := DeleteAll(w, s, deleted);
            v == w.(objects := w.objects - (set k | k in w.sweeps[s].keys && deleted(k)),
                    sweeps := w.sweeps[s := w.sweeps[s].(keys := [])])
    decreases |w.sweeps[s].keys|
  {
    var keys := w.sweeps[s].keys;
    if keys == [] {
      assert w.sweeps[s := w.sweeps[s].(keys := [])] == w.sweeps;
    } else {
      DeletingAll(Delete(w, s, deleted(keys[0])), s, deleted);
      assert keys == [keys[0]] + keys[1..];
    }
  }

  // ---------------------------------------------------------------- what a whole batch expires

  /** A batch of sweeps that have read their rows and not marked them yet. */
  ghost predicate Unmarked(w: World, batch: seq<SweepId>) {
    && w.rows.Keys == w.past.Keys
    && (forall i :: 0 <= i < |batch| ==>
          batch[i] in w.sweeps && w.sweeps[batch[i]].at.Marking? && w.sweeps[batch[i]].from != EXPIRED)
    && (forall i, j :: 0 <= i < j < |batch| ==> batch[i] != batch[j])
  }

  /** The batch's i-th sweep finds its row as it was read, and no sweep before it expires that row. */
  ghost predicate Expires(w: World, batch: seq<SweepId>, i: int)
    requires Unmarked(w, batch)
  {
    && 0 <= i < |batch| && w.sweeps[batch[i]].id in w.rows
    && w.rows[w.sweeps[batch[i]].id].state == w.sweeps[batch[i]].from
    && forall j :: 0 <= j < i ==> w.sweeps[batch[j]].id != w.sweeps[batch[i]].id
                                  || w.sweeps[batch[j]].from != w.sweeps[batch[i]].from
  }

  ghost predicate ExpiresRow(w: World, batch: seq<SweepId>, id: Id)
    requires Unmarked(w, batch)
  {
    exists i :: Expires(w, batch, i) && w.sweeps[batch[i]].id == id
  }

  ghost predicate ExpiresKey(w: World, batch: seq<SweepId>, k: Key)
    requires Unmarked(w, batch)
  {
    exists i :: Expires(w, batch, i) && k in w.sweeps[batch[i]].keys
  }

  /** What a batch expires: one upload for each such sweep, with the bytes whose deletion succeeds; nothing else. */
  ghost predicate BatchExpires(w: World, v: World, acted: nat, batch: seq<SweepId>, deleted: Key -> bool)
    requires Unmarked(w, batch)
  {
    && v.rows.Keys == w.rows.Keys && v.passes == w.passes
    && (forall id :: id in w.rows ==>
          v.rows[id] == if ExpiresRow(w, batch, id) then w.rows[id].(state := EXPIRED) else w.rows[id])
    && acted == |set i | 0 <= i < |batch| && Expires(w, batch, i)|
    && (forall k :: k in v.objects <==> k in w.objects && !(deleted(k) && ExpiresKey(w, batch, k)))
  }

  /** What is left as it was for the sweeps still to come. */
  ghost predicate Leaves(w: World, v: World, batch: seq<SweepId>) {
    && v.past.Keys == w.past.Keys && v.sweeps.Keys == w.sweeps.Keys
    && forall s :: s in w.sweeps && s !in batch ==> v.sweeps[s] == w.sweeps[s]
  }

  lemma {:induction false} WhatABatchExpires(w: World, batch: seq<SweepId>, deleted: Key -> bool)
    requires Unmarked(w, batch)
    ensures var (v, acted) := ExpireAll(w, batch, deleted);
            BatchExpires(w, v, acted, batch, deleted) && Leaves(w, v, batch)
  {
    hide Unmarked, Expires, ExpiresRow, ExpiresKey, ExpireOne, Matches, BatchExpires;
    if batch != [] {
      var n := |batch| - 1;
      var (u, acted) := ExpireAll(w, batch[..n], deleted);
      FrontIsUnmarked(w, batch);
      WhatABatchExpires(w, batch[..n], deleted);
      LastIsUntouched(w, batch, u);
      FoundIsThere(u, w.sweeps[batch[n]]);
      SameKeys(w, u, acted, batch[..n], deleted);
      StillAsRead(w, batch, u);
      OneExpires(u, batch[n], deleted);
      OneMoreExpires(w, batch, deleted, u, acted, ExpireOne(u, batch[n], deleted));
    } else {
      NothingExpires(w, batch, deleted);
    }
  }

  lemma NothingExpires(w: World, batch: seq<SweepId>, deleted: Key -> bool)
    requires Unmarked(w, batch) && batch == []
    ensures BatchExpires(w, w, 0, batch, deleted)
  {
    assert (set i | 0 <= i < |batch| && Expires(w, batch, i)) == {};
  }

  lemma SameKeys(w: World, u: World, acted: nat, batch: seq<SweepId>, deleted: Key -> bool)
    requires Unmarked(w, batch) && BatchExpires(w, u, acted, batch, deleted) && Leaves(w, u, batch)
    ensures u.rows.Keys == w.rows.Keys && u.past.Keys == w.past.Keys && u.rows.Keys == u.past.Keys
    ensures forall id :: id in w.rows ==>
              u.rows[id] == if ExpiresRow(w, batch, id) then w.rows[id].(state := EXPIRED) else w.rows[id]
  {
    hide Expires, ExpiresRow, ExpiresKey;
  }

  /** One sweep more expires what the others do, and its own row and bytes if it finds the row as it was read. */
  lemma OneMore(w: World, batch: seq<SweepId>)
    requires Unmarked(w, batch) && batch != []
    ensures var n := |batch| - 1;
            var front, sweep, now := batch[..n], w.sweeps[batch[n]], Expires(w, batch, n);
            && Unmarked(w, front)
            && (forall id :: ExpiresRow(w, batch, id) <==> ExpiresRow(w, front, id) || (now && id == sweep.id))
            && (forall k :: ExpiresKey(w, batch, k) <==> ExpiresKey(w, front, k) || (now && k in sweep.keys))
            && |set i | 0 <= i < |batch| && Expires(w, batch, i)|
               == |set i | 0 <= i < n && Expires(w, front, i)| + if now then 1 else 0
  {
    hide Unmarked, Expires, ExpiresRow, ExpiresKey;
    var n := |batch| - 1;
    var front := batch[..n];
    FrontIsUnmarked(w, batch);
    forall i ensures Expires(w, batch, i) <==> Expires(w, front, i) || (i == n && Expires(w, batch, n)) {
      SamePlace(w, batch, i);
    }
    forall i ensures Expires(w, front, i) ==> 0 <= i < n {
      PlaceIsInside(w, front, i);
    }
    var before, after := set i | 0 <= i < n && Expires(w, front, i), set i | 0 <= i < |batch| && Expires(w, batch, i);
    assert after == before + if Expires(w, batch, n) then {n} else {};
    OneMoreRow(w, batch);
    OneMoreKey(w, batch);
  }

  lemma FrontIsUnmarked(w: World, batch: seq<SweepId>)
    requires Unmarked(w, batch) && batch != []
    ensures Unmarked(w, batch[..|batch| - 1])
  {
  }

  lemma PlaceIsInside(w: World, batch: seq<SweepId>, i: int)
    requires Unmarked(w, batch)
    ensures Expires(w, batch, i) ==> 0 <= i < |batch|
  {
  }

  lemma SamePlace(w: World, batch: seq<SweepId>, i: int)
    requires Unmarked(w, batch) && batch != [] && Unmarked(w, batch[..|batch| - 1])
    ensures var n := |batch| - 1;
            Expires(w, batch, i) <==> Expires(w, batch[..n], i) || (i == n && Expires(w, batch, n))
  {
    hide Unmarked;
    var front := batch[..|batch| - 1];
    assert 0 <= i < |front| ==> front[i] == batch[i];
    assert 0 <= i < |front| ==> forall j :: 0 <= j < i ==> front[j] == batch[j];
  }

  lemma OneMoreRow(w: World, batch: seq<SweepId>)
    requires Unmarked(w, batch) && batch != [] && Unmarked(w, batch[..|batch| - 1])
    requires var n := |batch| - 1;
             forall i :: Expires(w, batch, i) <==> Expires(w, batch[..n], i) || (i == n && Expires(w, batch, n))
    ensures var n := |batch| - 1;
            forall id :: ExpiresRow(w, batch, id)
                         <==> ExpiresRow(w, batch[..n], id) || (Expires(w, batch, n) && id == w.sweeps[batch[n]].id)
  {
    var n := |batch| - 1;
    forall id
      ensures ExpiresRow(w, batch, id)
              <==> ExpiresRow(w, batch[..n], id) || (Expires(w, batch, n) && id == w.sweeps[batch[n]].id)
    {
      if i :| Expires(w, batch[..n], i) && w.sweeps[batch[..n][i]].id == id {
        assert Expires(w, batch, i);
      }
      if i :| Expires(w, batch, i) && w.sweeps[batch[i]].id == id {
        assert i != n ==> Expires(w, batch[..n], i);
      }
    }
  }

  lemma OneMoreKey(w: World, batch: seq<SweepId>)
    requires Unmarked(w, batch) && batch != [] && Unmarked(w, batch[..|batch| - 1])
    requires var n := |batch| - 1;
             forall i :: Expires(w, batch, i) <==> Expires(w, batch[..n], i) || (i == n && Expires(w, batch, n))
    ensures var n := |batch| - 1;
            forall k :: ExpiresKey(w, batch, k)
                        <==> ExpiresKey(w, batch[..n], k) || (Expires(w, batch, n) && k in w.sweeps[batch[n]].keys)
  {
    var n := |batch| - 1;
    forall k
      ensures ExpiresKey(w, batch, k)
              <==> ExpiresKey(w, batch[..n], k) || (Expires(w, batch, n) && k in w.sweeps[batch[n]].keys)
    {
      if i :| Expires(w, batch[..n], i) && k in w.sweeps[batch[..n][i]].keys {
        assert Expires(w, batch, i);
      }
      if i :| Expires(w, batch, i) && k in w.sweeps[batch[i]].keys {
        assert i != n ==> Expires(w, batch[..n], i);
      }
    }
  }

  /** What one sweep does to the world it comes to. */
  lemma OneExpires(u: World, s: SweepId, deleted: Key -> bool)
    requires s in u.sweeps && u.sweeps[s].at.Marking? && u.rows.Keys == u.past.Keys
    ensures var sweep, v := u.sweeps[s], ExpireOne(u, s, deleted);
            && v.rows.Keys == u.rows.Keys && v.past.Keys == u.past.Keys && v.passes == u.passes
            && v.sweeps.Keys == u.sweeps.Keys && (forall x :: x in u.sweeps && x != s ==> v.sweeps[x] == u.sweeps[x])
            && if Matches(u, sweep.id, sweep.from)
               then v.rows == u.rows[sweep.id := u.rows[sweep.id].(state := EXPIRED)]
                    && v.objects == u.objects - set k | k in sweep.keys && deleted(k)
               else v.rows == u.rows && v.objects == u.objects
  {
    hide DeleteAll;
    var sweep := u.sweeps[s];
    if Matches(u, sweep.id, sweep.from) {
      DeletingAll(Mark(u, s), s, deleted);
    } else {
      NothingToDelete(Mark(u, s), s, deleted);
    }
  }

  lemma RowsOfOneMore(w: World, batch: seq<SweepId>, u: map<Id, Row>, v: map<Id, Row>)
    requires Unmarked(w, batch) && batch != [] && u.Keys == w.rows.Keys
    requires Unmarked(w, batch[..|batch| - 1])
    requires forall id :: id in w.rows ==>
               u[id] == if ExpiresRow(w, batch[..|batch| - 1], id) then w.rows[id].(state := EXPIRED) else w.rows[id]
    requires var id := w.sweeps[batch[|batch| - 1]].id;
             v == if Expires(w, batch, |batch| - 1) && id in u then u[id := u[id].(state := EXPIRED)] else u
    requires Expires(w, batch, |batch| - 1) ==> w.sweeps[batch[|batch| - 1]].id in u
    ensures v.Keys == w.rows.Keys
    ensures forall id :: id in w.rows ==>
              v[id] == if ExpiresRow(w, batch, id) then w.rows[id].(state := EXPIRED) else w.rows[id]
  {
    hide Unmarked, Expires, ExpiresRow, ExpiresKey;
    OneMore(w, batch);
  }

  lemma BytesOfOneMore(w: World, batch: seq<SweepId>, deleted: Key -> bool, u: set<Key>, v: set<Key>)
    requires Unmarked(w, batch) && batch != []
    requires Unmarked(w, batch[..|batch| - 1])
    requires forall k :: k in u <==> k in w.objects && !(deleted(k) && ExpiresKey(w, batch[..|batch| - 1], k))
    requires v == if Expires(w, batch, |batch| - 1)
                  then u - (set k | k in w.sweeps[batch[|batch| - 1]].keys && deleted(k)) else u
    ensures forall k :: k in v <==> k in w.objects && !(deleted(k) && ExpiresKey(w, batch, k))
  {
    hide Unmarked, Expires, ExpiresRow, ExpiresKey;
    OneMore(w, batch);
  }

  /** The same of the whole: what the sweep does after the others is what they all do. */
  lemma OneMoreExpires(w: World, batch: seq<SweepId>, deleted: Key -> bool, u: World, acted: nat, v: World)
    requires Unmarked(w, batch) && batch != [] && Unmarked(w, batch[..|batch| - 1])
    requires BatchExpires(w, u, acted, batch[..|batch| - 1], deleted)
    requires var sweep := w.sweeps[batch[|batch| - 1]];
             if Expires(w, batch, |batch| - 1)
             then sweep.id in u.rows && v.rows == u.rows[sweep.id := u.rows[sweep.id].(state := EXPIRED)]
                  && v.objects == u.objects - set k | k in sweep.keys && deleted(k)
             else v.rows == u.rows && v.objects == u.objects
    requires v.passes == u.passes
    ensures BatchExpires(w, v, acted + if Expires(w, batch, |batch| - 1) then 1 else 0, batch, deleted)
  {
    hide Expires, ExpiresRow, ExpiresKey, Unmarked;
    RowsOfOneMore(w, batch, u.rows, v.rows);
    BytesOfOneMore(w, batch, deleted, u.objects, v.objects);
    OneMore(w, batch);
  }

  lemma LastIsUntouched(w: World, batch: seq<SweepId>, u: World)
    requires Unmarked(w, batch) && batch != [] && Leaves(w, u, batch[..|batch| - 1])
    ensures var s := batch[|batch| - 1];
            s in w.sweeps && s in u.sweeps && u.sweeps[s] == w.sweeps[s] && w.sweeps[s].at.Marking?
  {
    assert batch[|batch| - 1] !in batch[..|batch| - 1];
  }

  lemma FoundIsThere(w: World, sweep: Sweep)
    ensures Matches(w, sweep.id, sweep.from) ==> sweep.id in w.rows
  {
  }

  lemma NothingToDelete(w: World, s: SweepId, deleted: Key -> bool)
    requires s in w.sweeps && !w.sweeps[s].at.Deleting?
    ensures DeleteAll(w, s, deleted) == w
  {
  }

  lemma StillAsRead(w: World, batch: seq<SweepId>, u: World)
    requires Unmarked(w, batch) && batch != [] && Unmarked(w, batch[..|batch| - 1])
    requires u.rows.Keys == w.rows.Keys && u.past.Keys == w.past.Keys
    requires forall id :: id in w.rows ==>
               u.rows[id] == if ExpiresRow(w, batch[..|batch| - 1], id) then w.rows[id].(state := EXPIRED) else w.rows[id]
    ensures var sweep := w.sweeps[batch[|batch| - 1]];
            Matches(u, sweep.id, sweep.from) <==> Expires(w, batch, |batch| - 1)
  {
    var n := |batch| - 1;
    var front, sweep := batch[..n], w.sweeps[batch[n]];
    if Matches(u, sweep.id, sweep.from) && !Expires(w, batch, n) {
      var j :| 0 <= j < n && w.sweeps[batch[j]].id == sweep.id && w.sweeps[batch[j]].from == sweep.from;
      FirstExpires(w, front, j);
    }
  }

  /** If a sweep finds its row as it was read, it or an earlier one expires it. */
  lemma {:induction false} FirstExpires(w: World, batch: seq<SweepId>, j: nat)
    requires Unmarked(w, batch) && j < |batch|
    requires w.sweeps[batch[j]].id in w.rows && w.rows[w.sweeps[batch[j]].id].state == w.sweeps[batch[j]].from
    ensures ExpiresRow(w, batch, w.sweeps[batch[j]].id)
  {
    if !Expires(w, batch, j) {
      var i :| 0 <= i < j && w.sweeps[batch[i]].id == w.sweeps[batch[j]].id && w.sweeps[batch[i]].from == w.sweeps[batch[j]].from;
      FirstExpires(w, batch, i);
    }
  }

  class AttachmentScanSweep {
    var rows: map<Id, Row>
    var objects: set<Key>
    ghost var passes: map<PassId, ScanPass>
    var sweeps: map<SweepId, Sweep>
    ghost var past: map<Id, seq<State>>
    const policy: Policy

    ghost function View(): World
      reads this
    {
      World(rows, objects, passes, sweeps, past)
    }

    constructor (policy: Policy)
      ensures View() == NO_UPLOADS && this.policy == policy
    {
      rows, objects, passes, sweeps, past := map[], {}, map[], map[], map[];
      this.policy := policy;
    }

    /** The store's conditional update: nothing happens unless the row is still in the state expected. */
    method Transition(id: Id, from: State, to: State, decision: Decision) returns (moved: bool)
      requires rows.Keys == past.Keys
      modifies this`rows, this`past
      ensures rows.Keys == past.Keys
      ensures moved == Matches(old(View()), id, from)
      ensures View() == if moved then Put(old(View()), id, MoveRow(old(rows[id]), to, decision)) else old(View())
    {
      if id !in rows || rows[id].state != from {
        return false;
      }
      var row := rows[id].(state := to);
      if decision.Accept? {
        row := row.(measured := Some(decision.measured), cleanKey := Some(decision.key));
      }
      rows, past := rows[id := row], past[id := past[id] + [to]];
      return true;
    }

    /** The storage's promotion; copying needs the original to be there. */
    method PromoteObject(objectId: nat, promotion: PromoteAnswer) returns (key: Option<Key>)
      modifies this`objects
      ensures key == if promotion.Unavailable? || Quarantine(objectId) !in old(objects) then None else Some(Clean(objectId))
      ensures objects == if key.None? then old(objects)
                         else
                           (if promotion.Renamed? then old(objects) - {Quarantine(objectId)} else old(objects))
                           + {Clean(objectId)}
    {
      if promotion.Unavailable? || Quarantine(objectId) !in objects {
        return None;
      }
      if promotion.Renamed? {
        objects := objects - {Quarantine(objectId)};
      }
      objects := objects + {Clean(objectId)};
      return Some(Clean(objectId));
    }

    /** One pass over one attachment; whether it settled the attachment. */
    method Process(p: PassId, id: Id, answer: ScanAnswer, promotion: PromoteAnswer) returns (acted: bool)
      requires rows.Keys == past.Keys && id in rows && p !in passes
      modifies this
      ensures View() == WholePass(policy, old(View()), p, id, answer, promotion)
      ensures acted <==> old(rows[id]).state == QUARANTINED && id in rows && rows[id].state in {CLEAN, INFECTED, REJECTED}
      ensures old(rows[id]).state != QUARANTINED ==> rows == old(rows) && objects == old(objects)
      ensures old(rows[id]).state == QUARANTINED ==>
                && id in rows && rows == old(rows)[id := rows[id]]
                && EndsAs(policy, old(rows[id]), old(objects), answer, promotion, rows[id], objects)
    {
      hide Start, TryClaim, Scan, Promote, Record, Write, CheckReceived, Verdict, ObjectsAfter;
      var attachment := rows[id];
      ghost var before := View();
      ghost var after := WholePass(policy, before, p, id, answer, promotion);
      ghost var judged := Scan(TryClaim(Start(before, p, id), p), policy, p, answer);
      Claiming(policy, before, p, id, answer);
      var claimed := Transition(id, QUARANTINED, SCANNING, Retry);
      if claimed {
        Deciding(policy, judged, p, answer, promotion);
        Settling(Record(Promote(judged, p, promotion), p), p,
                 Verdict(policy, attachment.upload, before.objects, answer, promotion));
        acted := Conclude(id, attachment.upload, answer, promotion);
        assert rows[id].upload == attachment.upload by {
          MovesKeepUploads(before.rows[id], Verdict(policy, attachment.upload, before.objects, answer, promotion));
        }
      } else {
        Idle(judged, p, promotion);
        acted := false;
      }
      passes := after.passes;
    }

    /** Everything after a successful claim: the verdict, the policy, the promotion, the settling write. */
    method Conclude(id: Id, upload: Upload, answer: ScanAnswer, promotion: PromoteAnswer) returns (acted: bool)
      requires rows.Keys == past.Keys && id in rows && rows[id].state == SCANNING
      modifies this`rows, this`past, this`objects
      ensures var verdict := Verdict(policy, upload, old(objects), answer, promotion);
              && View() == Put(old(View()), id, MoveRow(old(rows[id]), Target(verdict).value, verdict)).(
                             objects := ObjectsAfter(upload, old(objects), verdict, promotion))
              && acted == !verdict.Retry?
      ensures id in rows && EndsAs(policy, old(rows[id]).(state := QUARANTINED, upload := upload), old(objects), answer,
                                   promotion, rows[id].(upload := upload), objects)
    {
      hide CheckReceived;
      if answer.CannotRun? {
        var _ := Transition(id, SCANNING, QUARANTINED, Retry);
        return false;
      }
      if answer.Infected? || answer.Rejected? {
        Settle(id, answer.Infected?);
        return true;
      }
      if CheckReceived(policy, upload.uploader, upload.claim, answer.measured).Refuse? {
        Settle(id, false);
        return true;
      }
      var promoted := PromoteObject(upload.objectId, promotion);
      if promoted.None? {
        var _ := Transition(id, SCANNING, QUARANTINED, Retry);
        return false;
      }
      var _ := Transition(id, SCANNING, CLEAN, Accept(answer.measured, promoted.value));
      return true;
    }

    /** The expiry sweep over the rows it has read: the row first, then its bytes; counts what it expired. */
    method ExpireBatch(batch: seq<SweepId>, deleted: Key -> bool) returns (acted: nat)
      requires rows.Keys == past.Keys
      requires forall i :: 0 <= i < |batch| ==> batch[i] in sweeps && sweeps[batch[i]].at.Marking?
      requires forall i, j :: 0 <= i < j < |batch| ==> batch[i] != batch[j]
      modifies this
      ensures (View(), acted) == ExpireAll(old(View()), batch, deleted)
      ensures Unmarked(old(View()), batch) ==> BatchExpires(old(View()), View(), acted, batch, deleted)
    {
      hide BatchExpires, Leaves, Unmarked, ExpireOne;
      acted := 0;
      for i := 0 to |batch|
        invariant rows.Keys == past.Keys
        invariant (View(), acted) == ExpireAll(old(View()), batch[..i], deleted)
        invariant forall j :: i <= j < |batch| ==> batch[j] in sweeps && sweeps[batch[j]] == old(sweeps[batch[j]])
      {
        assert batch[..i + 1][..i] == batch[..i];
        var marked := ExpireUpload(batch[i], deleted);
        if marked {
          acted := acted + 1;
        }
      }
      assert batch[..|batch|] == batch;
      if Unmarked(old(View()), batch) {
        WhatABatchExpires(old(View()), batch, deleted);
      }
    }

    method ExpireUpload(s: SweepId, deleted: Key -> bool) returns (marked: bool)
      requires rows.Keys == past.Keys && s in sweeps && sweeps[s].at.Marking?
      modifies this
      ensures rows.Keys == past.Keys
      ensures View() == ExpireOne(old(View()), s, deleted)
      ensures marked == Matches(old(View()), old(sweeps[s]).id, old(sweeps[s]).from)
      ensures forall r :: r in old(sweeps) && r != s ==> r in sweeps && sweeps[r] == old(sweeps[r])
    {
      ghost var after := Mark(View(), s);
      var stale := sweeps[s];
      marked := Transition(stale.id, stale.from, EXPIRED, Retry);
      sweeps := sweeps[s := stale.(at := if marked then Deleting else Finished)];
      assert View() == after;
      if marked {
        DeletingAll(after, s, deleted);
        DeleteBytes(stale.keys, deleted);
        sweeps := sweeps[s := sweeps[s].(keys := [])];
      }
    }

    method DeleteBytes(keys: seq<Key>, deleted: Key -> bool)
      modifies this`objects
      ensures objects == old(objects) - (set k | k in keys && deleted(k))
    {
      for i := 0 to |keys|
        invariant objects == old(objects) - (set k | k in keys[..i] && deleted(k))
      {
        if deleted(keys[i]) {
          objects := objects - {keys[i]};
        }
        assert keys[..i + 1] == keys[..i] + [keys[i]];
      }
      assert keys[..|keys|] == keys;
    }

    /** Applies a terminal verdict, once the pipeline agrees that it is a move. */
    method Settle(id: Id, infected: bool)
      requires rows.Keys == past.Keys && id in rows && rows[id].state == SCANNING
      modifies this`rows, this`past
      ensures View() == Put(old(View()), id, old(rows[id]).(state := if infected then INFECTED else REJECTED))
    {
      var permitted := Advance(SCANNING, if infected then SCAN_INFECTED else SCAN_REJECTED);
      if permitted.Moved? {
        var _ := Transition(id, SCANNING, if infected then INFECTED else REJECTED, Condemn(infected));
      }
    }
  }
}
