/**
 * What each step does to a row, to the bytes and to a sweep, written out.
 */
module AttachmentMoves {
  import opened Options
  import opened AttachmentPolicy
  import opened Attachments
  import opened AttachmentVerdicts

  // ---------------------------------------------------------------- rows

  /** The pass stands at its claim, for this row. */
  predicate ClaimsIt(w: World, p: PassId, id: Id) {
    p in w.passes && w.passes[p].id == id && w.passes[p].at.Ready?
  }

  predicate WritesIt(w: World, p: PassId, id: Id) {
    p in w.passes && w.passes[p].id == id && w.passes[p].at.Writing?
  }

  predicate MarksIt(w: World, s: SweepId, id: Id) {
    s in w.sweeps && w.sweeps[s].id == id && w.sweeps[s].at.Marking?
  }

  /** The row as a pass leaves it. */
  function Settled(row: Row, decision: Decision): Row {
    match decision
    case Retry => row.(state := QUARANTINED)
    case Condemn(infected) => row.(state := if infected then INFECTED else REJECTED)
    case Accept(measured, key) => row.(state := CLEAN, measured := Some(measured), cleanKey := Some(key))
  }

  /** Where an event takes a row: each move from one state alone, and none but these. */
  function Moved(w: World, e: Event, id: Id, row: Row): Row {
    match e
    case Announced(x) => if x == id && row.state == UPLOAD_GRANTED then row.(state := QUARANTINED) else row
    case Claims(p) => if ClaimsIt(w, p, id) && row.state == QUARANTINED then row.(state := SCANNING) else row
    case Writes(p) => if WritesIt(w, p, id) && row.state == SCANNING then Settled(row, w.passes[p].at.next) else row
    case Binds(x, messageId, conversationId) =>
      if x == id && row.state == CLEAN && row.upload.conversationId == conversationId
      then row.(state := BOUND, messageId := Some(messageId), expiresAt := None) else row
    case SweepMarks(s) => if MarksIt(w, s, id) && row.state == w.sweeps[s].from then row.(state := EXPIRED) else row
    case _ => row
  }

  /** Over any run, a row goes where its event takes it and nowhere else. */
  lemma RowsMoveAs(policy: Policy, events: seq<Event>, e: Event, id: Id)
    requires id in Run(policy, NO_UPLOADS, events).rows
    ensures var w := Run(policy, NO_UPLOADS, events);
            id in Step(policy, w, e).rows && Step(policy, w, e).rows[id] == Moved(w, e, id, w.rows[id])
  {
    hide Run, Judge, Safe, PassesSafe, SweepsSafe, OneAtATime;
    var w := Run(policy, NO_UPLOADS, events);
    EveryRunIsSafe(policy, events);
    RowHasAPast(policy, w, id);
  }

  lemma RowHasAPast(policy: Policy, w: World, id: Id)
    requires Safe(policy, w) && id in w.rows
    ensures id in w.past
  {
    assert RowSafe(policy, w, id);
  }

  /** A row comes from a grant: new, under bytes of its own. */
  lemma RowsAreGranted(policy: Policy, events: seq<Event>, e: Event, id: Id)
    requires id !in Run(policy, NO_UPLOADS, events).rows
    ensures var w := Run(policy, NO_UPLOADS, events);
            && (id in Step(policy, w, e).rows <==>
                  e.Granted? && e.id == id && forall x :: x in w.rows ==> w.rows[x].upload.objectId != e.upload.objectId)
            && (id in Step(policy, w, e).rows ==>
                  Step(policy, w, e).rows[id] == Row(e.upload, UPLOAD_GRANTED, None, None, None, Some(e.expiresAt)))
  {
    hide Run, Judge, Target, MoveRow, CheckReceived;
    PastIsOfRows(policy, events, id);
  }

  lemma {:induction false} PastIsOfRows(policy: Policy, events: seq<Event>, id: Id)
    ensures var w := Run(policy, NO_UPLOADS, events);
            id in w.past ==> id in w.rows
  {
    hide Step;
    if events != [] {
      var before := events[..|events| - 1];
      PastIsOfRows(policy, before, id);
      PastStays(policy, Run(policy, NO_UPLOADS, before), events[|events| - 1], id);
    }
  }

  lemma PastStays(policy: Policy, w: World, e: Event, id: Id)
    requires id in w.past ==> id in w.rows
    ensures id in Step(policy, w, e).past ==> id in Step(policy, w, e).rows
  {
    hide Judge, Target, MoveRow;
  }

  // ---------------------------------------------------------------- passes

  /** Where a step of its own takes a pass: forward, one place at a time, or out. */
  function Next(policy: Policy, w: World, e: Event, pass: ScanPass): Counter {
    match pass.at
    case Ready =>
      if !e.Claims? then pass.at
      else if pass.id in w.rows && w.rows[pass.id].state == QUARANTINED then Scanning else Done
    case Scanning =>
      if !e.ScannerAnswers? then pass.at
      else
        (match e.answer
         case CannotRun => Recording(Retry)
         case Infected => Recording(Condemn(true))
         case Rejected => Recording(Condemn(false))
         case FoundClean(m) =>
           if CheckReceived(policy, pass.upload.uploader, pass.upload.claim, m).Pass? then Promoting(m)
           else Recording(Condemn(false)))
    case Promoting(m) =>
      if !e.StorageAnswers? then pass.at
      else if e.promotion == Unavailable || Quarantine(pass.upload.objectId) !in w.objects then Writing(Retry)
      else Recording(Accept(m, Clean(pass.upload.objectId)))
    case Recording(next) => if e.Records? then Writing(next) else pass.at
    case Writing(_) => if e.Writes? then Done else pass.at
    case Done => Done
  }

  lemma OwnMove(policy: Policy, w: World, e: Event, p: PassId)
    requires p in w.passes && StepOf(e, p) && !e.PassCrashes? && (w.passes[p].id in w.rows ==> w.passes[p].id in w.past)
    ensures Step(policy, w, e).passes == w.passes[p := Step(policy, w, e).passes[p]]
    ensures Step(policy, w, e).passes[p].id == w.passes[p].id && Step(policy, w, e).passes[p].upload == w.passes[p].upload
    ensures Step(policy, w, e).passes[p].at == Next(policy, w, e, w.passes[p])
  {
    hide CheckReceived, Target, MoveRow;
  }

  /** Over any run a pass moves by its own steps only, and stops for good when it has written or crashed. */
  lemma PassesMoveAs(policy: Policy, events: seq<Event>, e: Event, p: PassId)
    requires p in Run(policy, NO_UPLOADS, events).passes
    ensures var w := Run(policy, NO_UPLOADS, events);
            && p in Step(policy, w, e).passes
            && Step(policy, w, e).passes[p].id == w.passes[p].id && Step(policy, w, e).passes[p].upload == w.passes[p].upload
            && Step(policy, w, e).passes[p].at
               == if !StepOf(e, p) then w.passes[p].at else if e.PassCrashes? then Done else Next(policy, w, e, w.passes[p])
  {
    hide Run, Safe, Next;
    var w := Run(policy, NO_UPLOADS, events);
    EveryRunIsSafe(policy, events);
    if w.passes[p].id in w.rows {
      RowHasAPast(policy, w, w.passes[p].id);
    }
    if !StepOf(e, p) {
      hide Step;
      OthersStay(policy, w, e, p);
    } else if !e.PassCrashes? {
      hide Step;
      OwnMove(policy, w, e, p);
    }
  }

  // ---------------------------------------------------------------- bytes

  /** The storage copies the pass's bytes out of quarantine. */
  predicate Copies(w: World, e: Event) {
    && e.StorageAnswers? && e.promotion in {Renamed, CopiedOnly} && e.p in w.passes && w.passes[e.p].at.Promoting?
    && Quarantine(w.passes[e.p].upload.objectId) in w.objects
  }

  /** A key's bytes are there once they arrived or were copied there, until they are moved away or deleted. */
  predicate Stored(w: World, e: Event, k: Key) {
    || (e.BytesArrive? && e.id in w.rows && k == Quarantine(w.rows[e.id].upload.objectId))
    || (Copies(w, e) && k == Clean(w.passes[e.p].upload.objectId))
    || (k in w.objects
        && !(Copies(w, e) && e.promotion == Renamed && k == Quarantine(w.passes[e.p].upload.objectId))
        && !(e.SweepDeletes? && e.deleted && e.s in w.sweeps && w.sweeps[e.s].at.Deleting? && w.sweeps[e.s].keys != []
             && k == w.sweeps[e.s].keys[0]))
  }

  lemma BytesMoveAs(policy: Policy, w: World, e: Event, k: Key)
    ensures k in Step(policy, w, e).objects <==> Stored(w, e, k)
  {
    hide Judge, Target, MoveRow;
  }

  // ---------------------------------------------------------------- sweeps

  /** The row may be swept: not part of a message, on its way, and past its time. */
  predicate IsDue(row: Row, now: int) {
    && row.messageId.None? && row.state in {UPLOAD_GRANTED, QUARANTINED, SCANNING, CLEAN}
    && row.expiresAt.Some? && row.expiresAt.value <= now
  }

  /** What a sweep takes with it of a row: its state, and the keys of its bytes. */
  function Taken(id: Id, row: Row): Sweep {
    Sweep(id, row.state, [Quarantine(row.upload.objectId)] + (if row.cleanKey.Some? then [row.cleanKey.value] else []), Marking)
  }

  lemma SweepsReadAs(policy: Policy, w: World, e: Event, s: SweepId)
    requires s !in w.sweeps
    ensures s in Step(policy, w, e).sweeps <==>
              e.SweepReads? && e.s == s && e.id in w.rows && IsDue(w.rows[e.id], e.now)
    ensures s in Step(policy, w, e).sweeps ==> Step(policy, w, e).sweeps[s] == Taken(e.id, w.rows[e.id])
  {
    hide Judge, Target, MoveRow;
  }

  /** A sweep marks once, deletes its keys in order only if its mark found the row as it was read, and may die. */
  function Advanced(w: World, e: Event, sweep: Sweep): Sweep {
    match e
    case SweepMarks(_) =>
      if !sweep.at.Marking? then sweep
      else sweep.(at := if sweep.id in w.rows && w.rows[sweep.id].state == sweep.from then Deleting else Finished)
    case SweepDeletes(_, _) =>
      if sweep.at.Deleting? && sweep.keys != [] then sweep.(keys := sweep.keys[1..]) else sweep
    case SweepCrashes(_) => sweep.(at := Finished)
    case _ => sweep
  }

  predicate SweepOf(e: Event, s: SweepId) {
    match e
    case SweepMarks(x) => x == s
    case SweepDeletes(x, _) => x == s
    case SweepCrashes(x) => x == s
    case _ => false
  }

  lemma SweepsMoveAs(policy: Policy, events: seq<Event>, e: Event, s: SweepId)
    requires s in Run(policy, NO_UPLOADS, events).sweeps
    ensures var w := Run(policy, NO_UPLOADS, events);
            s in Step(policy, w, e).sweeps
            && Step(policy, w, e).sweeps[s] == if SweepOf(e, s) then Advanced(w, e, w.sweeps[s]) else w.sweeps[s]
  {
    hide Run, Judge, Target, MoveRow, Safe;
    var w := Run(policy, NO_UPLOADS, events);
    EveryRunIsSafe(policy, events);
    if w.sweeps[s].id in w.rows {
      RowHasAPast(policy, w, w.sweeps[s].id);
    }
  }
}
